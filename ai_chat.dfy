/**
 * The ai-chat edge function: a cache-or-compute relay in front of a chat
 * completion service. A request's query is normalised into a cache key; a
 * cached answer is served as is, otherwise the completion service is asked
 * once and its answer cached for 24 hours. Every valid request appends one row
 * to `chat_history`, including an "Error: ..." row when the completion fails.
 *
 * The cache is a map (plus the TTL last set per key), the history table an
 * append-only sequence whose row ids are their positions, and the completion
 * service an oracle: the reply it would give is a parameter, and every call
 * made to it is recorded, so "not called" and "called once" are observable.
 */
module AiChat {
  import opened Basics
  import opened Text
  import opened Uri

  /** Seconds a cached answer lives. */
  const CacheTtl: nat := 86400
  const CompletionModel := "llama3-8b-8192"

  /** What the completion service answers: an HTTP status with the message content it
      carried (if any), or a failure of the request itself. */
  datatype CompletionReply = Reply(status: nat, content: Option<string>) | NetworkError(message: string)

  const MissingKeyError := "GROQ_API_KEY is not set."
  const MissingContentError := "Invalid response from Groq, \"content\" field is missing."

  /** `queryGroq`: the answer text, or the message of the error it throws. */
  function QueryGroq(apiKeySet: bool, reply: CompletionReply): (r: Result<string, string>)
    ensures r.Ok? <==> apiKeySet && reply.Reply? && 200 <= reply.status < 300 && Truthy(reply.content)
    ensures r.Ok? ==> r.value != "" && r.value == reply.content.value
    ensures !apiKeySet ==> r == Err(MissingKeyError)
  {
    if !apiKeySet then Err(MissingKeyError)
    else match reply
      case NetworkError(message) => Err(message)
      case Reply(status, content) =>
        if !(200 <= status < 300) then Err("Groq API error: " + NatToString(status))
        else if !Truthy(content) then Err(MissingContentError)
        else Ok(content.value)
  }

  datatype Body = Malformed | Body(query: Option<string>, userId: Option<string>)

  datatype Request = Preflight | Post(body: Body)

  datatype Response = Cors | Answer(response: string, chatId: Option<nat>) | Failure(status: nat, error: string)

  datatype HistoryRow = HistoryRow(id: nat, userId: string, query: string, response: string, createdAt: int)

  /** Which external calls fail during one request. */
  datatype Faults = Faults(getFails: bool, setFails: bool, insertFails: bool)

  const NoFaults := Faults(false, false, false)

  /** Everything the function touches: cache entries and their TTLs, the history table, and
      the queries sent to the completion service. */
  datatype Relay = Relay(cache: map<string, string>, ttls: map<string, nat>, history: seq<HistoryRow>, calls: seq<string>)

  const MissingFields := "Query and userId are required"
  const InternalError := "Internal server error"
  const FallbackError := "Failed to get response from AI."

  /** The key is the query lower-cased, then trimmed. */
  function CacheKey(query: string): string {
    "faq:" + Trim(ToLower(query))
  }

  /** Queries that differ only in letter case or in surrounding white space share a cache
      entry. */
  lemma SharedCacheEntry(q1: string, q2: string, pre: string, post: string)
    requires ToLower(q1) == ToLower(q2) && IsBlank(pre) && IsBlank(post)
    ensures CacheKey(pre + q1 + post) == CacheKey(q2)
  {
    ToLowerConcat(pre + q1, post);
    ToLowerConcat(pre, q1);
    ToLowerBlank(pre);
    ToLowerBlank(post);
    TrimIgnoresPadding(pre, ToLower(q1), post);
  }

  /** The URL parser of `fetch` drops tabs and line breaks wherever they occur. */
  predicate IsTabOrNewline(c: char) {
    c == '\t' || c == '\n' || c == '\r'
  }

  function DropTabsAndNewlines(s: string): string {
    if s == [] then [] else (if IsTabOrNewline(s[0]) then [] else [s[0]]) + DropTabsAndNewlines(s[1..])
  }

  /** The path of a URL ends at its first `?` (the query) or `#` (the fragment). */
  function PathEnd(s: string): (r: string)
    ensures |r| <= |s| && r == s[..|r|]
    ensures '?' !in r && '#' !in r
    ensures |r| < |s| ==> s[|r|] == '?' || s[|r|] == '#'
  {
    if s == [] || s[0] == '?' || s[0] == '#' then []
    else
      var r := PathEnd(s[1..]);
      assert [s[0]] + r == s[..|r| + 1];
      [s[0]] + r
  }

  /** The bytes the cache service reads from one path segment: percent escapes decoded,
      every other character (a `+` included) as its UTF-8 bytes. */
  function SegmentBytes(s: string): seq<Byte> {
    if s == [] then []
    else if s[0] == '%' && |s| >= 3 && IsHexChar(s[1]) && IsHexChar(s[2]) then
      [HexValue(s[1]) * 16 + HexValue(s[2])] + SegmentBytes(s[3..])
    else Utf8Char(s[0]) + SegmentBytes(s[1..])
  }

  function SegmentDecode(s: string): string {
    Utf8Decode(SegmentBytes(s))
  }

  /** The key a `GET` of `key` reads. `redisGet` requests `/get/<key>`: the path stops at a
      `?` or `#`, and a `/` (or a backslash, which the parser reads as `/`) left in it splits off
      extra arguments, which the service refuses; `None` is that refusal. */
  function GetTarget(key: string): Option<string> {
    var p := PathEnd(DropTabsAndNewlines(key));
    if '/' in p || '\\' in p then None else Some(SegmentDecode(p))
  }

  /** The key a `SETEX` of `key` stores under. `redisSet` requests `/setex/<key>/86400`:
      a `?` or `#` in the key cuts the TTL off and a `/` or a backslash adds an argument, and the
      service refuses both; `None` is that refusal. */
  function SetTarget(key: string): Option<string> {
    var k := DropTabsAndNewlines(key);
    if '?' in k || '#' in k || '/' in k || '\\' in k then None else Some(SegmentDecode(k))
  }

  /** How the key is written into the URL path: as it is (the deployed code), or through
      `encodeURIComponent`. */
  datatype KeyPath = RawKey | EncodedKey

  function InPath(kp: KeyPath, key: string): string {
    if kp == RawKey then key else EncodeURIComponent(key)
  }

  function ReadKey(kp: KeyPath, key: string): Option<string> {
    GetTarget(InPath(kp, key))
  }

  function StoreKey(kp: KeyPath, key: string): Option<string> {
    SetTarget(InPath(kp, key))
  }

  /** `redisGet`: null without configuration, on error, or when the service refuses the
      request or holds nothing under the key it reads. */
  function CacheGet(configured: bool, kp: KeyPath, st: Relay, key: string, getFails: bool): Option<string> {
    if !configured || getFails then None
    else match ReadKey(kp, key)
      case None => None
      case Some(k) => if k in st.cache then Some(st.cache[k]) else None
  }

  /** `redisSet` with a TTL; it reports failure instead of throwing. */
  function CacheSet(configured: bool, kp: KeyPath, st: Relay, key: string, value: string, setFails: bool): Relay {
    if !configured || setFails || StoreKey(kp, key).None? then st
    else
      var k := StoreKey(kp, key).value;
      st.(cache := st.cache[k := value], ttls := st.ttls[k := CacheTtl])
  }

  lemma {:induction false} DropKeepsClean(s: string)
    requires forall i :: 0 <= i < |s| ==> !IsTabOrNewline(s[i])
    ensures DropTabsAndNewlines(s) == s
  {
    if s != [] {
      DropKeepsClean(s[1..]);
      assert [s[0]] + s[1..] == s;
    }
  }

  lemma {:induction false} SegmentBytesPlain(s: string)
    requires '%' !in s
    ensures SegmentBytes(s) == Utf8(s)
  {
    if s != [] {
      assert forall i :: 0 <= i < |s[1..]| ==> s[1..][i] == s[i + 1];
      SegmentBytesPlain(s[1..]);
    }
  }

  lemma {:induction false} SegmentBytesWithoutPlus(s: string)
    requires '+' !in s
    ensures SegmentBytes(s) == PercentDecode(s)
  {
    if s != [] {
      if s[0] == '%' && |s| >= 3 && IsHexChar(s[1]) && IsHexChar(s[2]) {
        assert forall i :: 0 <= i < |s[3..]| ==> s[3..][i] == s[i + 3];
        SegmentBytesWithoutPlus(s[3..]);
      } else {
        assert forall i :: 0 <= i < |s[1..]| ==> s[1..][i] == s[i + 1];
        SegmentBytesWithoutPlus(s[1..]);
      }
    }
  }

  /** A path holding neither `?` nor `#` is whole. */
  lemma {:induction false} PathEndWhole(s: string)
    requires '?' !in s && '#' !in s
    ensures PathEnd(s) == s
  {
    if s != [] {
      assert s[0] in s;
      assert forall c :: c in s[1..] ==> c in s;
      PathEndWhole(s[1..]);
      assert [s[0]] + s[1..] == s;
    }
  }

  /** What `SETEX` stores under is what `GET` then reads: a key the service accepts for
      writing reaches it the same way for reading. */
  lemma StoredKeyReadsBack(key: string)
    ensures SetTarget(key).Some? ==> GetTarget(key) == SetTarget(key)
  {
    var k := DropTabsAndNewlines(key);
    if '?' !in k && '#' !in k {
      PathEndWhole(k);
    }
  }

  predicate PlainKey(key: string) {
    forall i :: 0 <= i < |key| ==> key[i] !in "?#/\\%" && !IsTabOrNewline(key[i])
  }

  /** A key of ordinary characters (none of `?`, `#`, `/`, backslash, `%`, tab or line
      break) reaches the service as it is, for reading and for writing. */
  lemma PlainKeyArrivesAsIs(key: string)
    requires PlainKey(key)
    ensures GetTarget(key) == Some(key) && SetTarget(key) == Some(key)
  {
    DropKeepsClean(key);
    NoneOf(key, "?#/\\%");
    PathEndWhole(key);
    SegmentBytesPlain(key);
    Utf8RoundTrip(key);
  }

  /** A string none of whose characters is in `cs` holds none of them. */
  lemma NoneOf(s: string, cs: string)
    requires forall i :: 0 <= i < |s| ==> s[i] !in cs
    ensures forall c :: c in cs ==> c !in s
  {
  }

  /** `encodeURIComponent` writes only unreserved characters and `%`. */
  lemma EncodedIsClean(key: string)
    ensures forall i :: 0 <= i < |EncodeURIComponent(key)| ==>
      EncodeURIComponent(key)[i] !in "?#/\\+" && !IsTabOrNewline(EncodeURIComponent(key)[i])
  {
    EncodedIsQuerySafe(key);
  }

  /** With the key written through `encodeURIComponent`, every key reaches the service
      whole: `GET` and `SETEX` both work on exactly that key. */
  lemma EncodedKeyDelivered(key: string)
    ensures ReadKey(EncodedKey, key) == Some(key) && StoreKey(EncodedKey, key) == Some(key)
  {
    var e := EncodeURIComponent(key);
    EncodedIsClean(key);
    DropKeepsClean(e);
    NoneOf(e, "?#/\\+");
    PathEndWhole(e);
    SegmentBytesWithoutPlus(e);
    PercentDecodeOfEncoded(key);
    Utf8RoundTrip(key);
  }

  /** Appends a history row unless the insert fails; returns the new row's id. Ids are
      positive (the table's generated key is never falsy), so `data?.id || null` is the id
      itself. */
  function InsertHistory(st: Relay, userId: string, query: string, response: string, now: int, fails: bool): (Relay, Option<nat>) {
    if fails then (st, None)
    else (st.(history := st.history + [HistoryRow(|st.history| + 1, userId, query, response, now)]), Some(|st.history| + 1))
  }

  /** The text stored for a failed completion. */
  function ErrorText(message: string): string {
    "Error: " + (if message != "" then message else FallbackError)
  }

  /** The request handler: the new state and the response. */
  function HandleSpec(cacheConfigured: bool, apiKeySet: bool, kp: KeyPath, st: Relay, req: Request, faults: Faults,
                      reply: CompletionReply, now: int): (Relay, Response)
  {
    match req
    case Preflight => (st, Cors)
    case Post(Malformed) => (st, Failure(500, InternalError))
    case Post(Body(query, userId)) =>
      if !Truthy(query) || !Truthy(userId) then (st, Failure(400, MissingFields))
      else
        var q, uid := query.value, userId.value;
        var key := CacheKey(q);
        var cached := CacheGet(cacheConfigured, kp, st, key, faults.getFails);
        if Truthy(cached) then
          var (st1, id) := InsertHistory(st, uid, q, cached.value, now, faults.insertFails);
          (st1, Answer(cached.value, id))
        else
          var called := if apiKeySet then st.(calls := st.calls + [q]) else st;
          match QueryGroq(apiKeySet, reply)
          case Err(message) =>
            (InsertHistory(called, uid, q, ErrorText(message), now, faults.insertFails).0, Failure(500, InternalError))
          case Ok(answer) =>
            var stored := CacheSet(cacheConfigured, kp, called, key, answer, faults.setFails);
            var (st1, id) := InsertHistory(stored, uid, q, answer, now, faults.insertFails);
            (st1, Answer(answer, id))
  }

  /** A request without a query or a user id is answered 400 before anything else
      happens: no cache read, no completion call, no history row. */
  lemma IncompleteRequestHasNoEffect(cacheConfigured: bool, apiKeySet: bool, kp: KeyPath, st: Relay, query: Option<string>,
                                     userId: Option<string>, faults: Faults, reply: CompletionReply, now: int)
    requires !Truthy(query) || !Truthy(userId)
    ensures HandleSpec(cacheConfigured, apiKeySet, kp, st, Post(Body(query, userId)), faults, reply, now)
      == (st, Failure(400, MissingFields))
  {
  }

  /** On a cache hit (a non-empty entry under the key the service reads) the completion
      service is not called, the cached text is the answer, and one history row records the
      raw query with it. */
  lemma CacheHitSkipsCompletion(kp: KeyPath, apiKeySet: bool, st: Relay, query: string, userId: string,
                                faults: Faults, reply: CompletionReply, now: int)
    requires query != "" && userId != "" && !faults.getFails
    requires ReadKey(kp, CacheKey(query)).Some?
    requires ReadKey(kp, CacheKey(query)).value in st.cache && st.cache[ReadKey(kp, CacheKey(query)).value] != ""
    ensures var (st', resp) := HandleSpec(true, apiKeySet, kp, st, Post(Body(Some(query), Some(userId))), faults, reply, now);
      var answer := st.cache[ReadKey(kp, CacheKey(query)).value];
      st'.calls == st.calls && st'.cache == st.cache
      && resp.Answer? && resp.response == answer
      && (faults.insertFails ==> st'.history == st.history && resp.chatId.None?)
      && (!faults.insertFails ==>
            st'.history == st.history + [HistoryRow(|st.history| + 1, userId, query, answer, now)]
            && resp.chatId == Some(|st.history| + 1))
  {
  }

  /** On a miss the completion service is called exactly once, with the raw query; a
      successful answer is returned, cached for 24 hours under the key the service stores
      (when it accepts the write), and logged in one history row holding the raw query. */
  lemma MissCallsCompletionOnce(cacheConfigured: bool, kp: KeyPath, st: Relay, query: string, userId: string,
                                faults: Faults, reply: CompletionReply, now: int)
    requires query != "" && userId != ""
    requires !Truthy(CacheGet(cacheConfigured, kp, st, CacheKey(query), faults.getFails))
    ensures var (st', resp) := HandleSpec(cacheConfigured, true, kp, st, Post(Body(Some(query), Some(userId))), faults, reply, now);
      var target := StoreKey(kp, CacheKey(query));
      st'.calls == st.calls + [query]
      && (QueryGroq(true, reply).Ok? ==>
            var answer := QueryGroq(true, reply).value;
            resp.Answer? && resp.response == answer
            && (cacheConfigured && !faults.setFails && target.Some? ==>
                  st'.cache == st.cache[target.value := answer] && st'.ttls == st.ttls[target.value := CacheTtl])
            && (!cacheConfigured || faults.setFails || target.None? ==> st'.cache == st.cache)
            && (!faults.insertFails ==>
                  st'.history == st.history + [HistoryRow(|st.history| + 1, userId, query, answer, now)]))
  {
    var (st', resp) := HandleSpec(cacheConfigured, true, kp, st, Post(Body(Some(query), Some(userId))), faults, reply, now);
    var called := st.(calls := st.calls + [query]);
    if QueryGroq(true, reply).Ok? {
      var answer := QueryGroq(true, reply).value;
      var stored := CacheSet(cacheConfigured, kp, called, CacheKey(query), answer, faults.setFails);
      assert (st', resp) == (InsertHistory(stored, userId, query, answer, now, faults.insertFails).0,
                             Answer(answer, InsertHistory(stored, userId, query, answer, now, faults.insertFails).1));
    }
  }

  /** A failed completion (no API key, a non-2xx status, no content, or a failed request)
      is answered 500 and logged as one history row whose text starts with "Error: ". */
  lemma FailureIsLogged(cacheConfigured: bool, apiKeySet: bool, kp: KeyPath, st: Relay, query: string, userId: string,
                        faults: Faults, reply: CompletionReply, now: int)
    requires query != "" && userId != ""
    requires !Truthy(CacheGet(cacheConfigured, kp, st, CacheKey(query), faults.getFails))
    requires QueryGroq(apiKeySet, reply).Err?
    ensures var (st', resp) := HandleSpec(cacheConfigured, apiKeySet, kp, st, Post(Body(Some(query), Some(userId))), faults, reply, now);
      resp == Failure(500, InternalError) && st'.cache == st.cache
      && (faults.insertFails ==> st'.history == st.history)
      && (!faults.insertFails ==>
            |st'.history| == |st.history| + 1 && st'.history[..|st.history|] == st.history
            && var row := st'.history[|st.history|];
            row.query == query && row.userId == userId && StartsWith(row.response, "Error: "))
  {
    var (st', resp) := HandleSpec(cacheConfigured, apiKeySet, kp, st, Post(Body(Some(query), Some(userId))), faults, reply, now);
    if !faults.insertFails {
      var row := st'.history[|st.history|];
      assert row.response[..7] == "Error: ";
    }
  }

  /** A successful answer to a miss is stored under the key the service accepts, and
      returned. */
  lemma AnswerStored(kp: KeyPath, st: Relay, query: string, userId: string, faults: Faults,
                     reply: CompletionReply, now: int, k: string)
    requires query != "" && userId != ""
    requires StoreKey(kp, CacheKey(query)) == Some(k) && ReadKey(kp, CacheKey(query)) == Some(k)
    requires QueryGroq(true, reply).Ok? && !faults.setFails
    ensures var (st1, resp1) := HandleSpec(true, true, kp, st, Post(Body(Some(query), Some(userId))), faults, reply, now);
      resp1.Answer? && k in st1.cache && st1.cache[k] == resp1.response && resp1.response != ""
  {
    var (st1, resp1) := HandleSpec(true, true, kp, st, Post(Body(Some(query), Some(userId))), faults, reply, now);
    if !faults.getFails && k in st.cache && st.cache[k] != "" {
      assert st1.cache == st.cache && resp1.response == st.cache[k];
    } else {
      assert st1.cache[k] == QueryGroq(true, reply).value == resp1.response;
    }
  }

  /** After a successful answer, the same question asked again (in any case, with any
      surrounding white space) is served from the cache, provided the service accepted
      the key for writing: the completion service is not called a second time, the second
      answer is the first, and the second request still logs a history row. */
  lemma RepeatQuestionServedFromCache(kp: KeyPath, st: Relay, query: string, again: string, userId: string,
                                      first: Faults, second: Faults, reply1: CompletionReply,
                                      reply2: CompletionReply, now1: int, now2: int)
    requires query != "" && again != "" && userId != ""
    requires CacheKey(again) == CacheKey(query) && StoreKey(kp, CacheKey(query)).Some?
    requires QueryGroq(true, reply1).Ok? && !first.setFails && !second.getFails
    ensures var (st1, resp1) := HandleSpec(true, true, kp, st, Post(Body(Some(query), Some(userId))), first, reply1, now1);
      var (st2, resp2) := HandleSpec(true, true, kp, st1, Post(Body(Some(again), Some(userId))), second, reply2, now2);
      st2.calls == st1.calls && resp1.Answer? && resp2.Answer? && resp2.response == resp1.response
      && (!second.insertFails ==> |st2.history| == |st1.history| + 1)
  {
    var (st1, resp1) := HandleSpec(true, true, kp, st, Post(Body(Some(query), Some(userId))), first, reply1, now1);
    StoredKeyReadsBack(InPath(kp, CacheKey(query)));
    var k := StoreKey(kp, CacheKey(query)).value;
    AnswerStored(kp, st, query, userId, first, reply1, now1, k);
    CacheHitSkipsCompletion(kp, true, st1, again, userId, second, reply2, now2);
  }

  /** With the key written through `encodeURIComponent`, a repeated question is served
      from the cache whatever characters it holds. */
  lemma EncodedRepeatServedFromCache(st: Relay, query: string, again: string, userId: string,
                                     first: Faults, second: Faults, reply1: CompletionReply,
                                     reply2: CompletionReply, now1: int, now2: int)
    requires query != "" && again != "" && userId != ""
    requires CacheKey(again) == CacheKey(query)
    requires QueryGroq(true, reply1).Ok? && !first.setFails && !second.getFails
    ensures var (st1, resp1) := HandleSpec(true, true, EncodedKey, st, Post(Body(Some(query), Some(userId))), first, reply1, now1);
      var (st2, resp2) := HandleSpec(true, true, EncodedKey, st1, Post(Body(Some(again), Some(userId))), second, reply2, now2);
      st2.calls == st1.calls && resp2.Answer? && resp2.response == resp1.response
  {
    EncodedKeyDelivered(CacheKey(query));
    RepeatQuestionServedFromCache(EncodedKey, st, query, again, userId, first, second, reply1, reply2, now1, now2);
  }

  /** A miss on a key the service refuses for writing calls the completion service and
      leaves the cache as it was, whatever the completion answers. */
  lemma RefusedKeyNotStored(kp: KeyPath, st: Relay, query: string, userId: string, faults: Faults,
                            reply: CompletionReply, now: int)
    requires query != "" && userId != ""
    requires StoreKey(kp, CacheKey(query)).None?
    requires !Truthy(CacheGet(true, kp, st, CacheKey(query), faults.getFails))
    ensures var (st1, _) := HandleSpec(true, true, kp, st, Post(Body(Some(query), Some(userId))), faults, reply, now);
      st1.cache == st.cache && st1.calls == st.calls + [query]
  {
  }

  /** The cache read sees only the cache entries. */
  lemma CacheGetOfSameCache(kp: KeyPath, st: Relay, st': Relay, key: string, getFails: bool)
    requires st'.cache == st.cache
    ensures CacheGet(true, kp, st', key, getFails) == CacheGet(true, kp, st, key, getFails)
  {
  }

  /** When the service refuses the key for writing, nothing is ever cached for the
      question: the first request leaves the cache as it was, so a repeat that finds
      nothing under the key read calls the completion service again. */
  lemma RefusedKeyAskedEveryTime(kp: KeyPath, st: Relay, query: string, again: string, userId: string,
                                 first: Faults, second: Faults, reply1: CompletionReply,
                                 reply2: CompletionReply, now1: int, now2: int)
    requires query != "" && again != "" && userId != ""
    requires CacheKey(again) == CacheKey(query) && StoreKey(kp, CacheKey(query)).None?
    requires !Truthy(CacheGet(true, kp, st, CacheKey(query), false))
    ensures var (st1, _) := HandleSpec(true, true, kp, st, Post(Body(Some(query), Some(userId))), first, reply1, now1);
      var (st2, _) := HandleSpec(true, true, kp, st1, Post(Body(Some(again), Some(userId))), second, reply2, now2);
      st1.cache == st.cache && st1.calls == st.calls + [query] && st2.calls == st1.calls + [again]
  {
    var (st1, _) := HandleSpec(true, true, kp, st, Post(Body(Some(query), Some(userId))), first, reply1, now1);
    RefusedKeyNotStored(kp, st, query, userId, first, reply1, now1);
    CacheGetOfSameCache(kp, st1, st, CacheKey(query), second.getFails);
    RefusedKeyNotStored(kp, st1, again, userId, second, reply2, now2);
  }

  /** A `?` right after a clean path ends it. */
  lemma {:induction false} PathEndAtQuestion(s: string)
    requires '?' !in s && '#' !in s
    ensures PathEnd(s + "?") == s
  {
    if s == [] {
      assert s + "?" == "?";
    } else {
      assert s[0] in s;
      assert (s + "?")[0] == s[0] && (s + "?")[1..] == s[1..] + "?";
      assert forall c :: c in s[1..] ==> c in s;
      PathEndAtQuestion(s[1..]);
      assert [s[0]] + s[1..] == s;
    }
  }

  /** A plain key followed by `?`: `SETEX` is refused, and `GET` reads the key without it. */
  lemma KeyEndingInQuestionMark(k: string)
    requires PlainKey(k)
    ensures SetTarget(k + "?").None? && GetTarget(k + "?") == Some(k)
  {
    var t := k + "?";
    forall i | 0 <= i < |t| ensures !IsTabOrNewline(t[i]) {
      if i < |k| {
        assert t[i] == k[i];
      }
    }
    DropKeepsClean(t);
    assert t[|k|] == '?';
    assert '?' in DropTabsAndNewlines(t);
    NoneOf(k, "?#/\\%");
    PathEndAtQuestion(k);
    assert PathEnd(DropTabsAndNewlines(t)) == k;
    PlainKeyDecodes(k);
  }

  lemma PlainKeyDecodes(k: string)
    requires PlainKey(k)
    ensures SegmentDecode(k) == k
  {
    NoneOf(k, "?#/\\%");
    SegmentBytesPlain(k);
    Utf8RoundTrip(k);
  }

  /** A question ending in `?` whose key is otherwise plain, as the deployed code sends it:
      `SETEX` loses its TTL to the URL's query string and is refused, while `GET` reads the
      entry of the question without the `?`. */
  lemma QuestionMarkKeyRefused(p: string)
    requires PlainKey(CacheKey(p)) && CacheKey(p + "?") == CacheKey(p) + "?"
    ensures StoreKey(RawKey, CacheKey(p + "?")).None?
    ensures ReadKey(RawKey, CacheKey(p + "?")) == Some(CacheKey(p))
  {
    KeyEndingInQuestionMark(CacheKey(p));
  }

  lemma LowerOfQuestion()
    ensures ToLower("What is Dafny?") == "what is dafny?"
  {
  }

  lemma LowerOfPlainQuestion()
    ensures ToLower("What is Dafny") == "what is dafny"
  {
  }

  lemma TrimOfQuestion()
    ensures Trim("what is dafny?") == "what is dafny?"
  {
    TrimUnpadded("what is dafny?");
  }

  lemma TrimOfPlainQuestion()
    ensures Trim("what is dafny") == "what is dafny"
  {
    TrimUnpadded("what is dafny");
  }

  lemma KeyOfQuestion()
    ensures CacheKey("What is Dafny?") == "faq:what is dafny?"
  {
    LowerOfQuestion();
    TrimOfQuestion();
  }

  lemma KeyOfPlainQuestion()
    ensures CacheKey("What is Dafny") == "faq:what is dafny"
  {
    LowerOfPlainQuestion();
    TrimOfPlainQuestion();
  }

  lemma PlainQuestionKey()
    ensures PlainKey("faq:what is dafny")
  {
  }

  /** "What is Dafny?" is such a question: its key is "faq:what is dafny?", so it is never
      cached and its repeats read the entry of "What is Dafny". */
  lemma WhatIsDafnyIsRefused()
    ensures CacheKey("What is Dafny?") == "faq:what is dafny?" == CacheKey("What is Dafny") + "?"
    ensures PlainKey(CacheKey("What is Dafny"))
  {
    KeyOfQuestion();
    KeyOfPlainQuestion();
    PlainQuestionKey();
  }

  /** Without cache configuration nothing is read or written there, so every valid request
      reaches the completion service. */
  lemma UnconfiguredCacheAlwaysCompletes(kp: KeyPath, st: Relay, query: string, userId: string, faults: Faults,
                                         reply: CompletionReply, now: int)
    requires query != "" && userId != ""
    ensures var (st', _) := HandleSpec(false, true, kp, st, Post(Body(Some(query), Some(userId))), faults, reply, now);
      st'.calls == st.calls + [query] && st'.cache == st.cache && st'.ttls == st.ttls
  {
    var called := st.(calls := st.calls + [query]);
    assert CacheGet(false, kp, st, CacheKey(query), faults.getFails) == None;
    assert CacheSet(false, kp, called, CacheKey(query), "", faults.setFails) == called;
  }

  /** The deployed function with its cache, its history table and its completion client. */
  class ChatRelay {
    const cacheConfigured: bool
    const apiKeySet: bool
    var cache: map<string, string>
    var ttls: map<string, nat>
    var history: seq<HistoryRow>
    var completionCalls: seq<string>

    function State(): Relay
      reads this
    {
      Relay(cache, ttls, history, completionCalls)
    }

    constructor (cacheConfigured: bool, apiKeySet: bool)
      ensures this.cacheConfigured == cacheConfigured && this.apiKeySet == apiKeySet
      ensures State() == Relay(map[], map[], [], [])
    {
      this.cacheConfigured := cacheConfigured;
      this.apiKeySet := apiKeySet;
      cache := map[];
      ttls := map[];
      history := [];
      completionCalls := [];
    }

    method RedisGet(key: string, fails: bool) returns (result: Option<string>)
      ensures result == CacheGet(cacheConfigured, RawKey, State(), key, fails)
    {
      if !cacheConfigured || fails {
        return None;
      }
      var target := GetTarget(key);
      if target.None? {
        return None;
      }
      result := if target.value in cache then Some(cache[target.value]) else None;
    }

    method RedisSet(key: string, value: string, fails: bool) returns (ok: bool)
      modifies this
      ensures State() == CacheSet(cacheConfigured, RawKey, old(State()), key, value, fails)
      ensures ok == (cacheConfigured && !fails && SetTarget(key).Some?)
    {
      if !cacheConfigured || fails {
        return false;
      }
      var target := SetTarget(key);
      if target.None? {
        return false;
      }
      cache := cache[target.value := value];
      ttls := ttls[target.value := CacheTtl];
      return true;
    }

    method QueryCompletion(query: string, reply: CompletionReply) returns (r: Result<string, string>)
      modifies this
      ensures r == QueryGroq(apiKeySet, reply)
      ensures State() == if apiKeySet then old(State()).(calls := old(completionCalls) + [query]) else old(State())
    {
      if !apiKeySet {
        return Err(MissingKeyError);
      }
      completionCalls := completionCalls + [query];
      match reply {
        case NetworkError(message) =>
          r := Err(message);
        case Reply(status, content) =>
          if !(200 <= status < 300) {
            r := Err("Groq API error: " + NatToString(status));
          } else if !Truthy(content) {
            r := Err(MissingContentError);
          } else {
            r := Ok(content.value);
          }
      }
    }

    method InsertRow(userId: string, query: string, response: string, now: int, fails: bool) returns (id: Option<nat>)
      modifies this
      ensures (State(), id) == InsertHistory(old(State()), userId, query, response, now, fails)
    {
      if fails {
        return None;
      }
      id := Some(|history| + 1);
      history := history + [HistoryRow(|history| + 1, userId, query, response, now)];
    }

    method Handle(req: Request, faults: Faults, reply: CompletionReply, now: int) returns (resp: Response)
      modifies this
      ensures (State(), resp) == HandleSpec(cacheConfigured, apiKeySet, RawKey, old(State()), req, faults, reply, now)
    {
      match req {
        case Preflight =>
          return Cors;
        case Post(Malformed) =>
          return Failure(500, InternalError);
        case Post(Body(query, userId)) =>
          if !Truthy(query) || !Truthy(userId) {
            return Failure(400, MissingFields);
          }
          var key := CacheKey(query.value);
          var response := RedisGet(key, faults.getFails);
          if !Truthy(response) {
            var answer := QueryCompletion(query.value, reply);
            if answer.Err? {
              var _ := InsertRow(userId.value, query.value, ErrorText(answer.error), now, faults.insertFails);
              return Failure(500, InternalError);
            }
            response := Some(answer.value);
            var _ := RedisSet(key, answer.value, faults.setFails);
          }
          var id := InsertRow(userId.value, query.value, response.value, now, faults.insertFails);
          return Answer(response.value, id);
      }
    }
  }
}
