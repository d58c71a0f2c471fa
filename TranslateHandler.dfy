/**
 * The translation endpoint of src/app/api/translate/route.ts.
 *
 * A `POST` runs a pipeline over three pieces of shared state: the rate-limiter
 * store, the translation cache and the table of translation records. `Handle`
 * states what one request does to them as a function of the state before it,
 * and `Server.Post` performs the same steps on the `Limiter` and `Cache`
 * objects. Whatever lies outside the process is an input: the signed-in user,
 * the request headers and the parsed body, the environment, the salted hash,
 * the outcome of the engine's HTTP exchange and the clock readings.
 */
module TranslateHandler {
  import opened Wrappers
  import Env
  import Languages
  import RateLimit
  import TranslationCache
  import LibreTranslate

  const DefaultMaxChars: int := 2000
  const DefaultIpMaxRequests: int := 60
  const DefaultIpWindowMs: int := 60000
  const DefaultBaseUrl: string := "http://localhost:5000"
  const UnknownErrorCode: string := "TRANSLATION_ERROR"

  /** The Portuguese `error` texts of the handler's refusals and of a failed translation. */
  const RateLimitedText: string := "Muitas requisi\U{E7}\U{F5}es. Tente novamente em instantes."
  const InvalidSourceText: string := "Idioma de origem inv\U{E1}lido."
  const InvalidTargetText: string := "Idioma de destino inv\U{E1}lido."
  const FailedText: string := "Falha ao traduzir. Verifique se o provider est\U{E1} online."

  // ---------------------------------------------------------------- client address

  /** `String.prototype.trim`'s set: the WhiteSpace and LineTerminator characters of ECMAScript. */
  predicate IsWhitespace(c: char)
  {
    || c == '\t' || c == '\n' || c == '\U{B}' || c == '\U{C}' || c == '\r' || c == ' '
    || c == '\U{A0}' || c == '\U{1680}' || ('\U{2000}' <= c <= '\U{200A}')
    || c == '\U{2028}' || c == '\U{2029}' || c == '\U{202F}' || c == '\U{205F}'
    || c == '\U{3000}' || c == '\U{FEFF}'
  }

  /** The number of whitespace characters `s` starts with. */
  function Leading(s: string): (n: nat)
    ensures n <= |s| && (n == |s| || !IsWhitespace(s[n]))
    decreases |s|
  {
    if s != [] && IsWhitespace(s[0]) then 1 + Leading(s[1..]) else 0
  }

  /** The number of whitespace characters `s` ends with. */
  function Trailing(s: string): (n: nat)
    ensures n <= |s| && (n == |s| || !IsWhitespace(s[|s| - n - 1]))
    decreases |s|
  {
    if s != [] && IsWhitespace(s[|s| - 1]) then 1 + Trailing(s[..|s| - 1]) else 0
  }

  /** Only whitespace goes at the front. */
  lemma {:induction false} LeadingAreWhitespace(s: string)
    ensures forall i :: 0 <= i < Leading(s) ==> IsWhitespace(s[i])
    decreases |s|
  {
    if s != [] && IsWhitespace(s[0]) {
      LeadingAreWhitespace(s[1..]);
      forall i | 1 <= i < Leading(s) ensures IsWhitespace(s[i]) {
        assert s[i] == s[1..][i - 1];
      }
    }
  }

  /** Only whitespace goes at the back. */
  lemma {:induction false} TrailingAreWhitespace(s: string)
    ensures forall i :: |s| - Trailing(s) <= i < |s| ==> IsWhitespace(s[i])
    decreases |s|
  {
    if s != [] && IsWhitespace(s[|s| - 1]) {
      TrailingAreWhitespace(s[..|s| - 1]);
      forall i | |s| - Trailing(s) <= i < |s| - 1 ensures IsWhitespace(s[i]) {
        assert s[i] == s[..|s| - 1][i];
      }
    }
  }

  /** `s.trimStart()`. */
  function TrimStart(s: string): string { s[Leading(s)..] }

  /** `s.trimEnd()`. */
  function TrimEnd(s: string): string { s[..|s| - Trailing(s)] }

  /** `s.trim()`. */
  function Trim(s: string): string { TrimEnd(TrimStart(s)) }

  /** Trimming leaves a contiguous piece of the input with no whitespace at either end. */
  lemma TrimIsSlice(s: string)
    ensures var r := Trim(s); var i := Leading(s);
      && i + |r| <= |s| && r == s[i..i + |r|]
      && (r == [] || (!IsWhitespace(r[0]) && !IsWhitespace(r[|r| - 1])))
  {
    var i := Leading(s);
    var t := s[i..];
    var j := Trailing(t);
    var r := t[..|t| - j];
    assert TrimStart(s) == t && Trim(s) == r;
    assert r == s[i..i + |r|];
    if r != [] {
      assert j < |t| && i < |s|;
      assert r[0] == t[0] == s[i];
      assert r[|r| - 1] == t[|t| - j - 1];
    }
  }

  /** Trimming gives the empty string exactly when the input is all whitespace. */
  lemma TrimEmptyIff(s: string)
    ensures Trim(s) == [] <==> forall k :: 0 <= k < |s| ==> IsWhitespace(s[k])
  {
    var i := Leading(s);
    var t := TrimStart(s);
    LeadingAreWhitespace(s);
    TrailingAreWhitespace(t);
    if Trim(s) != [] {
      assert Trim(s)[0] == t[0] == s[i];
    }
  }

  /** Trimming twice is trimming once. */
  lemma TrimIdempotent(s: string)
    ensures Trim(Trim(s)) == Trim(s)
  {
    TrimIsSlice(s);
    var r := Trim(s);
    assert TrimStart(r) == r;
    assert TrimEnd(r) == r;
  }

  /** Trimming keeps only characters of its input: a string without commas trims to one without. */
  lemma TrimKeepsCommaFree(s: string)
    requires ',' !in s
    ensures ',' !in Trim(s)
  {
    TrimIsSlice(s);
    var r := Trim(s);
    var i := Leading(s);
    forall k | 0 <= k < |r| ensures r[k] != ',' {
      assert r[k] == s[i + k];
    }
  }

  /** `s.split(",")[0]`: everything before the first comma. */
  function FirstHop(s: string): (r: string)
    ensures |r| <= |s| && r == s[..|r|] && ',' !in r
    ensures |r| < |s| ==> s[|r|] == ','
    decreases |s|
  {
    if s == [] || s[0] == ',' then [] else [s[0]] + FirstHop(s[1..])
  }

  /** `headers.get(name)` on the lower-cased header names. */
  function Header(headers: map<string, string>, name: string): Option<string>
  {
    if name in headers then Some(headers[name]) else None
  }

  /** `x?.trim()`, then the truthiness test the source applies to the result. */
  function TrimmedNonEmpty(raw: Option<string>): (r: Option<string>)
    ensures r.Some? ==> raw.Some? && r.value == Trim(raw.value) && r.value != ""
    ensures r.None? ==> raw.None? || Trim(raw.value) == ""
  {
    if raw.Some? && Trim(raw.value) != "" then Some(Trim(raw.value)) else None
  }

  /** `getClientIp`. */
  function GetClientIp(headers: map<string, string>): (ip: Option<string>)
    ensures ip.Some? ==> ip.value != "" && Trim(ip.value) == ip.value
  {
    var forwarded := Header(headers, "x-forwarded-for");
    var first := if forwarded.Some? && forwarded.value != "" then TrimmedNonEmpty(Some(FirstHop(forwarded.value))) else None;
    var found :=
      if first.Some? then first
      else if TrimmedNonEmpty(Header(headers, "x-real-ip")).Some? then TrimmedNonEmpty(Header(headers, "x-real-ip"))
      else TrimmedNonEmpty(Header(headers, "cf-connecting-ip"));
    if found.Some? then TrimIdempotent(if first.Some? then FirstHop(forwarded.value)
                                       else if TrimmedNonEmpty(Header(headers, "x-real-ip")).Some? then headers["x-real-ip"]
                                       else headers["cf-connecting-ip"]);
      found
    else found
  }

  /**
   * The address is the trimmed first hop of `x-forwarded-for` when that is
   * not blank, else the trimmed `x-real-ip`, else the trimmed
   * `cf-connecting-ip`, else none; a blank first hop falls through to the
   * next header, and the later hops are never looked at.
   */
  lemma ClientIpPriority(headers: map<string, string>)
    ensures var ip := GetClientIp(headers);
      && ("x-forwarded-for" in headers && Trim(FirstHop(headers["x-forwarded-for"])) != "" ==>
            ip == Some(Trim(FirstHop(headers["x-forwarded-for"]))) && ',' !in ip.value)
      && (("x-forwarded-for" !in headers || Trim(FirstHop(headers["x-forwarded-for"])) == "") ==>
            if "x-real-ip" in headers && Trim(headers["x-real-ip"]) != "" then ip == Some(Trim(headers["x-real-ip"]))
            else if "cf-connecting-ip" in headers && Trim(headers["cf-connecting-ip"]) != "" then ip == Some(Trim(headers["cf-connecting-ip"]))
            else ip.None?)
  {
    if "x-forwarded-for" in headers {
      var f := headers["x-forwarded-for"];
      TrimKeepsCommaFree(FirstHop(f));
      if f == "" {
        assert FirstHop(f) == "";
      }
    }
  }

  /** A blank first hop is not skipped over to a later one. */
  lemma BlankFirstHopIgnoresLaterHops()
    ensures GetClientIp(map["x-forwarded-for" := " ,10.0.0.1"]) == None
  {
    assert FirstHop(" ,10.0.0.1") == " ";
    assert Leading(" ") == 1;
  }

  /** `RATE_LIMIT_IP_REQUESTS` and `RATE_LIMIT_IP_WINDOW_MS`, as parsed. */
  datatype IpSettings = IpSettings(maxEnv: Option<int>, windowEnv: Option<int>)

  /** `getIpRateLimit`: both knobs always given, 60 calls a minute unless configured. */
  function IpRateLimit(env: IpSettings): (opts: RateLimit.Options)
    ensures opts.maxRequests.Some? && opts.windowMs.Some?
    ensures opts.maxRequests.value > 0 && opts.windowMs.value > 0
    ensures opts.maxRequests.value == (if env.maxEnv.Some? && env.maxEnv.value > 0 then env.maxEnv.value else 60)
    ensures opts.windowMs.value == (if env.windowEnv.Some? && env.windowEnv.value > 0 then env.windowEnv.value else 60000)
  {
    RateLimit.Options(Some(Env.PositiveOr(env.windowEnv, DefaultIpWindowMs)), Some(Env.PositiveOr(env.maxEnv, DefaultIpMaxRequests)))
  }

  /** The explicit IP options override the general environment knobs entirely. */
  lemma IpLimitIgnoresGeneralKnobs(env: IpSettings, general: RateLimit.Settings)
    ensures RateLimit.EffectiveMax(IpRateLimit(env), general) == Env.PositiveOr(env.maxEnv, 60)
    ensures RateLimit.EffectiveWindow(IpRateLimit(env), general) == Env.PositiveOr(env.windowEnv, 60000)
  {
  }

  // ---------------------------------------------------------------- keys

  function UserKey(userId: string): string { "translate:" + userId }
  function IpKey(ip: string): string { "translate-ip:" + ip }

  /** The two limiters share one store, but a user key never collides with an address key. */
  lemma UserAndIpKeysDiffer(userId: string, ip: string)
    ensures UserKey(userId) != IpKey(ip)
  {
    assert UserKey(userId)[9] == ':';
    assert IpKey(ip)[9] == '-';
  }

  /** The user key names the user: two users never share a window. */
  lemma UserKeysSeparateUsers(a: string, b: string)
    requires UserKey(a) == UserKey(b)
    ensures a == b
  {
    assert a == UserKey(a)[10..];
    assert b == UserKey(b)[10..];
  }

  /** `t:${user.id}:${sourceLang}:${targetLang}:${textHash}`. */
  function CacheKey(userId: string, sourceLang: string, targetLang: string, textHash: string): (k: string)
    ensures |k| >= 2 && k[..2] == "t:"
  {
    "t:" + userId + ":" + sourceLang + ":" + targetLang + ":" + textHash
  }

  /** The index of the last `:` in `s`, or -1 when there is none. */
  function LastColon(s: string): (i: int)
    ensures -1 <= i < |s|
    ensures i >= 0 ==> s[i] == ':'
    decreases |s|
  {
    if s == [] then -1 else if s[|s| - 1] == ':' then |s| - 1 else LastColon(s[..|s| - 1])
  }

  lemma {:induction false} LastColonBeforeSuffix(x: string, a: string)
    requires ':' !in a
    ensures LastColon(x + ":" + a) == |x|
    decreases |a|
  {
    var s := x + ":" + a;
    if a == [] {
      assert s[|s| - 1] == ':';
    } else {
      assert s[|s| - 1] == a[|a| - 1];
      assert s[..|s| - 1] == x + ":" + a[..|a| - 1];
      LastColonBeforeSuffix(x, a[..|a| - 1]);
    }
  }

  /** A colon-free last segment is recovered from the string: it is what follows the last `:`. */
  lemma ColonFreeSuffix(x: string, a: string, y: string, b: string)
    requires ':' !in a && ':' !in b
    requires x + ":" + a == y + ":" + b
    ensures x == y && a == b
  {
    var s := x + ":" + a;
    LastColonBeforeSuffix(x, a);
    LastColonBeforeSuffix(y, b);
    assert x == s[..|x|] == y;
    assert a == s[|x| + 1..] == b;
  }

  /**
   * The cache key determines each of its parts once the two language codes and
   * the hash are free of `:` (as supported codes are, and a hexadecimal digest
   * is), even when the user id is not.  So no two users ever read each other's
   * entries.
   */
  lemma CacheKeyDeterminesParts(u1: string, s1: string, t1: string, h1: string, u2: string, s2: string, t2: string, h2: string)
    requires ':' !in s1 && ':' !in t1 && ':' !in h1 && ':' !in s2 && ':' !in t2 && ':' !in h2
    requires CacheKey(u1, s1, t1, h1) == CacheKey(u2, s2, t2, h2)
    ensures u1 == u2 && s1 == s2 && t1 == t2 && h1 == h2
  {
    ColonFreeSuffix("t:" + u1 + ":" + s1 + ":" + t1, h1, "t:" + u2 + ":" + s2 + ":" + t2, h2);
    ColonFreeSuffix("t:" + u1 + ":" + s1, t1, "t:" + u2 + ":" + s2, t2);
    ColonFreeSuffix("t:" + u1, s1, "t:" + u2, s2);
    assert u1 == ("t:" + u1)[2..];
    assert u2 == ("t:" + u2)[2..];
  }

  // ---------------------------------------------------------------- request and response

  /** The body as JSON gave it: a string `text`, an optional string `sourceLang`, a string `targetLang`. */
  datatype Body = Body(text: string, sourceLang: Option<string>, targetLang: string)

  /** The fields the schema lets through. */
  datatype Fields = Fields(text: string, sourceLang: string, targetLang: string)

  /** What the handler knows of a request: the signed-in user's id, the headers and the parsed body. */
  datatype Request = Request(userId: Option<string>, headers: map<string, string>, body: Option<Body>)

  /** The environment the handler and the modules under it read. */
  datatype Config = Config(
    limits: RateLimit.Settings,
    ip: IpSettings,
    maxCharsEnv: Option<int>,
    salt: Option<string>,
    providerEnv: Option<string>,
    baseUrlEnv: Option<string>,
    timeoutEnv: Option<int>,
    cache: TranslationCache.Settings)

  /**
   * What the outside world contributes, in the order the handler meets it:
   * the clock both limiters read, the clock the cache lookup reads once the
   * body has been awaited, the engine's answer and its measured latency, and
   * the clock the cache write reads once that answer has been received.
   */
  datatype Effects = Effects(arrival: int, lookup: int, fetch: LibreTranslate.FetchOutcome, latencyMs: int, finished: int)

  /** The limiter verdicts the response reports in its headers. */
  datatype Limits = Limits(user: RateLimit.RateLimitResult, ip: Option<RateLimit.RateLimitResult>)

  datatype Response =
    | Unauthorized
    | TooManyRequests(limits: Limits)
    | InvalidRequest
    | TooLong(maxChars: int)
    | InvalidSource
    | InvalidTarget
    | NotConfigured
    | ProviderUnavailable(message: string)   // `getTranslationProvider` threw outside the `try`
    | Translated(translatedText: string, detectedSourceLang: Option<string>, charsIn: nat,
                 latencyMs: Option<int>, provider: string, cached: bool, limits: Limits)
    | TranslationFailed(errorCode: string, limits: Limits)

  /** The HTTP status of each response; an uncaught throw is the framework's 500. */
  function Status(r: Response): int
  {
    match r
    case Unauthorized => 401
    case TooManyRequests(_) => 429
    case InvalidRequest => 400
    case TooLong(_) => 413
    case InvalidSource => 400
    case InvalidTarget => 400
    case NotConfigured => 500
    case ProviderUnavailable(_) => 500
    case Translated(_, _, _, _, _, _, _) => 200
    case TranslationFailed(_, _) => 502
  }

  /** Only a translation is a success; every other answer is an error status. */
  lemma OnlyTranslationSucceeds(r: Response)
    ensures Status(r) == 200 <==> r.Translated?
    ensures !r.Translated? ==> 400 <= Status(r) <= 502
  {
  }

  /**
   * The `error` text of each response the handler writes. A translation has
   * none, and neither has the framework's reply to the uncaught throw of
   * `getTranslationProvider`, which does not carry the thrown text.
   */
  function ErrorMessage(r: Response): (m: Option<string>)
    ensures m.None? <==> r.Translated? || r.ProviderUnavailable?
    ensures m.Some? ==> |m.value| > 0 && 400 <= Status(r) <= 502
  {
    match r
    case Unauthorized => Some("Unauthorized")
    case TooManyRequests(_) => Some(RateLimitedText)
    case InvalidRequest => Some("Invalid request")
    case TooLong(max) => Some(LimitText(max))
    case InvalidSource => Some(InvalidSourceText)
    case InvalidTarget => Some(InvalidTargetText)
    case NotConfigured => Some("Server not configured")
    case ProviderUnavailable(_) => None
    case Translated(_, _, _, _, _, _, _) => None
    case TranslationFailed(_, _) => Some(FailedText)
  }

  /** The `error` text of a too-long request, which names the limit in decimal. */
  function LimitText(max: int): (t: string)
    ensures |t| >= 26 && t[..14] == "Limite atual: " && t[|t| - 12..] == " caracteres."
  {
    "Limite atual: " + (if max >= 0 then LibreTranslate.Decimal(max) else "") + " caracteres."
  }

  /** `Math.ceil(ms / 1000)`: the smallest whole number of seconds not below `ms`. */
  function CeilSeconds(ms: int): (s: int)
    ensures 1000 * (s - 1) < ms <= 1000 * s
  {
    -((-ms) / 1000)
  }

  /** The rate-limit headers: the user limiter's always, the address limiter's when it ran. */
  function RateHeaders(l: Limits): (h: map<string, int>)
    ensures h.Keys == {"X-RateLimit-Remaining", "X-RateLimit-Reset"} + (if l.ip.Some? then {"X-RateLimit-IP-Remaining", "X-RateLimit-IP-Reset"} else {})
    ensures h["X-RateLimit-Remaining"] == l.user.remaining && h["X-RateLimit-Reset"] == CeilSeconds(l.user.resetAt)
    ensures l.ip.Some? ==> h["X-RateLimit-IP-Remaining"] == l.ip.value.remaining && h["X-RateLimit-IP-Reset"] == CeilSeconds(l.ip.value.resetAt)
  {
    var base := map["X-RateLimit-Remaining" := l.user.remaining, "X-RateLimit-Reset" := CeilSeconds(l.user.resetAt)];
    if l.ip.Some? then
      base["X-RateLimit-IP-Remaining" := l.ip.value.remaining]["X-RateLimit-IP-Reset" := CeilSeconds(l.ip.value.resetAt)]
    else base
  }

  /** The headers a response sets: the rate-limit headers on a 429, a 200 and a 502, and none on any other. */
  function ResponseHeaders(r: Response): (h: map<string, int>)
    ensures h != map[] <==> Status(r) in {429, 200, 502}
    ensures h != map[] ==> h == RateHeaders(r.limits)
  {
    match r
    case TooManyRequests(l) => RateHeaders(l)
    case Translated(_, _, _, _, _, _, l) => RateHeaders(l)
    case TranslationFailed(_, l) => RateHeaders(l)
    case _ => map[]
  }

  /** One row of the `translations` table: metadata only, the text itself is never stored. */
  datatype Record = Record(
    userId: string,
    sourceLang: string,
    detectedSourceLang: Option<string>,
    targetLang: string,
    charsIn: nat,
    provider: string,
    latencyMs: Option<int>,
    status: string,
    errorCode: Option<string>,
    textHash: string)

  /** What a `catch` clause saw: an `Error` with its message, or some other thrown value. */
  datatype Thrown = ErrorValue(message: string) | NonError

  function ErrorCode(t: Thrown): (code: string)
    ensures t.ErrorValue? ==> code == t.message
    ensures t.NonError? ==> code == "TRANSLATION_ERROR"
  {
    match t
    case ErrorValue(m) => m
    case NonError => UnknownErrorCode
  }

  // ---------------------------------------------------------------- the pipeline

  /** `getMaxTranslationChars`: a positive parsed value, else 2000. */
  function MaxChars(env: Option<int>): (r: int)
    ensures r > 0
    ensures r == (if env.Some? && env.value > 0 then env.value else 2000)
  {
    Env.PositiveOr(env, DefaultMaxChars)
  }

  /**
   * The schema, the length limit and the two language checks, in the
   * source's order; the first that fails decides the response.
   */
  function Validate(body: Option<Body>, maxChars: int): (r: Result<Fields, Response>)
    ensures body.None? || body.value.text == "" <==> r == Failure(InvalidRequest)
    ensures r.Success? <==>
              && body.Some? && body.value.text != "" && |body.value.text| <= maxChars
              && (body.value.sourceLang.None? || body.value.sourceLang.value == "auto"
                  || Languages.IsSupportedLanguage(body.value.sourceLang.value))
              && Languages.IsSupportedLanguage(body.value.targetLang)
    ensures r == Failure(TooLong(maxChars)) <==> body.Some? && body.value.text != "" && |body.value.text| > maxChars
    ensures r == Failure(InvalidSource) <==>
              && body.Some? && body.value.text != "" && |body.value.text| <= maxChars
              && body.value.sourceLang.Some? && body.value.sourceLang.value != "auto"
              && !Languages.IsSupportedLanguage(body.value.sourceLang.value)
    ensures r == Failure(InvalidTarget) <==>
              && body.Some? && body.value.text != "" && |body.value.text| <= maxChars
              && (body.value.sourceLang.None? || body.value.sourceLang.value == "auto"
                  || Languages.IsSupportedLanguage(body.value.sourceLang.value))
              && !Languages.IsSupportedLanguage(body.value.targetLang)
    ensures r.Success? ==>
              && r.value.text == body.value.text && r.value.targetLang == body.value.targetLang
              && r.value.sourceLang == body.value.sourceLang.GetOr("auto")
    ensures r.Failure? ==> r.error in {InvalidRequest, TooLong(maxChars), InvalidSource, InvalidTarget}
  {
    if body.None? || body.value.text == "" then Failure(InvalidRequest)
    else
      var f := Fields(body.value.text, body.value.sourceLang.GetOr("auto"), body.value.targetLang);
      if |f.text| > maxChars then Failure(TooLong(maxChars))
      else if f.sourceLang != "auto" && !Languages.IsSupportedLanguage(f.sourceLang) then Failure(InvalidSource)
      else if !Languages.IsSupportedLanguage(f.targetLang) then Failure(InvalidTarget)
      else Success(f)
  }

  /** A text of exactly the limit is accepted; one character more is refused with 413. */
  lemma LimitIsInclusive(text: string, sourceLang: Option<string>, targetLang: string, maxChars: int)
    requires |text| == maxChars > 0 && Languages.IsSupportedLanguage(targetLang) && sourceLang.None?
    ensures Validate(Some(Body(text, sourceLang, targetLang)), maxChars).Success?
    ensures Validate(Some(Body(text + "x", sourceLang, targetLang)), maxChars) == Failure(TooLong(maxChars))
  {
  }

  /** `"auto"` is accepted as a source but not as a target. */
  lemma AutoOnlyAsSource(text: string, maxChars: int)
    requires 0 < |text| <= maxChars
    ensures Validate(Some(Body(text, Some("auto"), "en")), maxChars).Success?
    ensures Validate(Some(Body(text, None, "auto")), maxChars) == Failure(InvalidTarget)
    ensures Validate(Some(Body(text, Some("xx"), "en")), maxChars) == Failure(InvalidSource)
  {
    Languages.SupportedExactly("en");
    Languages.AutoAndUpperCaseRejected();
    Languages.SupportedExactly("xx");
  }

  /** The shared state a request works on. */
  datatype World = World(store: map<string, RateLimit.Hit>, cache: TranslationCache.Snapshot, log: seq<Record>)

  /** A request's effect: the new state, the response, and the request sent to the engine if one was. */
  datatype Outcome = Outcome(world: World, response: Response, sent: Option<LibreTranslate.Outbound>)

  /** Both limiters, each charged before either verdict is looked at. */
  datatype Admission = Admission(store: map<string, RateLimit.Hit>, limits: Limits)

  function Admit(store: map<string, RateLimit.Hit>, userId: string, headers: map<string, string>, cfg: Config, now: int): (a: Admission)
    ensures var u := RateLimit.Call(store, UserKey(userId), now, RateLimit.WindowMs(cfg.limits.windowEnv), RateLimit.MaxRequests(cfg.limits.maxEnv));
      && a.limits.user == u.result
      && (GetClientIp(headers).None? ==> a.store == u.store && a.limits.ip.None?)
      && (GetClientIp(headers).Some? ==>
            var opts := IpRateLimit(cfg.ip);
            var i := RateLimit.Call(u.store, IpKey(GetClientIp(headers).value), now, opts.windowMs.value, opts.maxRequests.value);
            a.store == i.store && a.limits.ip == Some(i.result))
  {
    var none := RateLimit.Options(None, None);
    var u := RateLimit.Call(store, UserKey(userId), now, RateLimit.EffectiveWindow(none, cfg.limits), RateLimit.EffectiveMax(none, cfg.limits));
    var ip := GetClientIp(headers);
    if ip.None? then Admission(u.store, Limits(u.result, None))
    else
      var opts := IpRateLimit(cfg.ip);
      var i := RateLimit.Call(u.store, IpKey(ip.value), now, RateLimit.EffectiveWindow(opts, cfg.limits), RateLimit.EffectiveMax(opts, cfg.limits));
      Admission(i.store, Limits(u.result, Some(i.result)))
  }

  predicate Admitted(l: Limits) { l.user.ok && (l.ip.None? || l.ip.value.ok) }

  /**
   * When an address is found, both windows are charged whatever the user
   * limiter answered: the user's window keeps what the user call left it, and
   * the address window is reported and counted like any window (afresh when
   * absent or expired, one more when live with room, unchanged when full).
   * Every other key keeps its window, unless it had expired and was swept.
   */
  lemma AdmitChargesBoth(store: map<string, RateLimit.Hit>, userId: string, headers: map<string, string>, cfg: Config, now: int)
    requires GetClientIp(headers).Some?
    ensures var ip := GetClientIp(headers).value;
      var a := Admit(store, userId, headers, cfg, now);
      var u := RateLimit.Call(store, UserKey(userId), now, RateLimit.WindowMs(cfg.limits.windowEnv), RateLimit.MaxRequests(cfg.limits.maxEnv));
      var opts := IpRateLimit(cfg.ip);
      && a.limits.user == u.result
      && UserKey(userId) in a.store && a.store[UserKey(userId)] == u.store[UserKey(userId)]
      && IpKey(ip) in a.store && a.limits.ip.Some? && a.limits.ip.value.resetAt == a.store[IpKey(ip)].resetAt
      && (IpKey(ip) !in store || RateLimit.Expired(store[IpKey(ip)], now) ==>
            a.store[IpKey(ip)] == RateLimit.Hit(1, now + opts.windowMs.value) && a.limits.ip.value.ok)
      && (IpKey(ip) in store && !RateLimit.Expired(store[IpKey(ip)], now) && store[IpKey(ip)].count < opts.maxRequests.value ==>
            a.store[IpKey(ip)] == RateLimit.Hit(store[IpKey(ip)].count + 1, store[IpKey(ip)].resetAt) && a.limits.ip.value.ok)
      && (IpKey(ip) in store && !RateLimit.Expired(store[IpKey(ip)], now) && store[IpKey(ip)].count >= opts.maxRequests.value ==>
            a.store[IpKey(ip)] == store[IpKey(ip)] && !a.limits.ip.value.ok)
      && (forall k :: k != UserKey(userId) && k != IpKey(ip) && k in a.store ==> k in store && a.store[k] == store[k])
      && (forall k :: k != UserKey(userId) && k != IpKey(ip) && k in store && !RateLimit.Expired(store[k], now) ==> k in a.store)
  {
    var ip := GetClientIp(headers).value;
    var uk, ik := UserKey(userId), IpKey(ip);
    UserAndIpKeysDiffer(userId, ip);
    var uw, um := RateLimit.WindowMs(cfg.limits.windowEnv), RateLimit.MaxRequests(cfg.limits.maxEnv);
    var u := RateLimit.Call(store, uk, now, uw, um);
    if uk !in store || RateLimit.Expired(store[uk], now) {
      RateLimit.FreshWindow(store, uk, now, uw, um);
    } else if store[uk].count >= um {
      RateLimit.RejectionConsumesNothing(store, uk, now, uw, um);
    } else {
      RateLimit.AdmitWithinWindow(store, uk, now, uw, um);
    }
    assert !RateLimit.Expired(u.store[uk], now);
    var opts := IpRateLimit(cfg.ip);
    var iw, im := opts.windowMs.value, opts.maxRequests.value;
    if ik !in store || RateLimit.Expired(store[ik], now) {
      assert ik !in u.store || RateLimit.Expired(u.store[ik], now);
      RateLimit.FreshWindow(u.store, ik, now, iw, im);
    } else {
      assert ik in RateLimit.Pruned(store, now);
      assert ik in u.store && u.store[ik] == store[ik];
      if store[ik].count >= im {
        RateLimit.RejectionConsumesNothing(u.store, ik, now, iw, im);
      } else {
        RateLimit.AdmitWithinWindow(u.store, ik, now, iw, im);
      }
    }
    assert uk in RateLimit.Pruned(u.store, now);
  }

  /** The provider name the environment selects. */
  function ProviderName(cfg: Config): (p: string)
    ensures p != ""
    ensures p == LibreTranslate.ProviderName <==> cfg.providerEnv.None? || cfg.providerEnv.value in {"", LibreTranslate.ProviderName}
  {
    Env.NonEmptyOr(cfg.providerEnv, LibreTranslate.ProviderName)
  }

  /** `LIBRETRANSLATE_URL || "http://localhost:5000"`: the engine's configured base URL. */
  function BaseUrl(cfg: Config): (u: string)
    ensures cfg.baseUrlEnv.Some? && cfg.baseUrlEnv.value != "" ==> u == cfg.baseUrlEnv.value
    ensures (cfg.baseUrlEnv.None? || cfg.baseUrlEnv.value == "") ==> u == DefaultBaseUrl
    ensures u != ""
  {
    Env.NonEmptyOr(cfg.baseUrlEnv, DefaultBaseUrl)
  }

  /** `POST`: one request against the state `w`; `hash` is the salted digest `sha256Hex`. */
  function Handle(w: World, req: Request, cfg: Config, hash: string -> string, fx: Effects): (o: Outcome)
    requires w.cache.Valid()
    ensures o.world.cache.Valid()
    ensures |w.log| <= |o.world.log| <= |w.log| + 1 && o.world.log[..|w.log|] == w.log
  {
    if req.userId.None? then Outcome(w, Unauthorized, None)
    else
      var userId := req.userId.value;
      var a := Admit(w.store, userId, req.headers, cfg, fx.arrival);
      var w1 := w.(store := a.store);
      if !Admitted(a.limits) then Outcome(w1, TooManyRequests(a.limits), None)
      else Proceed(w1, userId, req.body, cfg, hash, fx, a.limits)
  }

  /** The part of `POST` after both limiters admitted the request: the checks, then `Serve`. */
  function Proceed(w: World, userId: string, body: Option<Body>, cfg: Config, hash: string -> string, fx: Effects, limits: Limits): (o: Outcome)
    requires w.cache.Valid()
    ensures o.world.cache.Valid() && o.world.store == w.store
    ensures |w.log| <= |o.world.log| <= |w.log| + 1 && o.world.log[..|w.log|] == w.log
    ensures !o.response.Unauthorized? && !o.response.TooManyRequests?
  {
    match Validate(body, MaxChars(cfg.maxCharsEnv))
    case Failure(r) => Outcome(w, r, None)
    case Success(f) =>
      if cfg.salt.None? || cfg.salt.value == "" then Outcome(w, NotConfigured, None)
      else if ProviderName(cfg) != LibreTranslate.ProviderName then
        Outcome(w, ProviderUnavailable("Unsupported TRANSLATION_PROVIDER: " + ProviderName(cfg)), None)
      else Serve(w, userId, f, cfg, hash(cfg.salt.value + f.text), fx, limits)
  }

  /** Cache lookup, then the engine on a miss: the part of `POST` after validation. */
  function Serve(w: World, userId: string, f: Fields, cfg: Config, textHash: string, fx: Effects, limits: Limits): (o: Outcome)
    requires w.cache.Valid()
    ensures o.world.cache.Valid() && o.world.store == w.store
    ensures |o.world.log| == |w.log| + 1 && o.world.log[..|w.log|] == w.log
    ensures o.response.Translated? || o.response.TranslationFailed?
    ensures var rec := o.world.log[|w.log|];
      && rec.userId == userId
      && (rec.status == "success" <==> rec.errorCode.None?)
      && (rec.status == "success" <==> o.response.Translated?)
  {
    var key := CacheKey(userId, f.sourceLang, f.targetLang, textHash);
    var look := TranslationCache.GetSpec(w.cache, key, fx.lookup);
    var charsIn := |f.text|;
    if look.hit.Some? then
      var c := look.hit.value;
      var rec := Record(userId, f.sourceLang, c.detectedSourceLang, f.targetLang, charsIn, "cache", Some(0), "success", None, textHash);
      Outcome(w.(cache := look.after, log := w.log + [rec]),
              Translated(c.translatedText, c.detectedSourceLang, charsIn, Some(0), c.provider, true, limits), None)
    else
      var input := LibreTranslate.TranslateInput(f.text, f.sourceLang, f.targetLang);
      var baseUrl := LibreTranslate.NormalizeBaseUrl(BaseUrl(cfg));
      var sent := LibreTranslate.Outbound(LibreTranslate.TranslateUrl(baseUrl), LibreTranslate.Request(input), LibreTranslate.TimeoutMs(cfg.timeoutEnv));
      match LibreTranslate.Classify(input, fx.fetch, fx.latencyMs)
      case Success(res) =>
        var value := TranslationCache.Cached(res.translatedText, res.provider, res.detectedSourceLang);
        var cache := TranslationCache.SetSpec(look.after, key, value, fx.finished,
                                              TranslationCache.TtlMs(cfg.cache.ttlEnv), TranslationCache.MaxEntries(cfg.cache.maxEnv));
        var rec := Record(userId, f.sourceLang, res.detectedSourceLang, f.targetLang, charsIn, res.provider, res.latencyMs, "success", None, textHash);
        Outcome(w.(cache := cache, log := w.log + [rec]),
                Translated(res.translatedText, res.detectedSourceLang, charsIn, res.latencyMs, res.provider, false, limits), Some(sent))
      case Failure(e) =>
        var code := ErrorCode(ErrorValue(LibreTranslate.Message(e)));
        var rec := Record(userId, f.sourceLang, None, f.targetLang, charsIn, ProviderName(cfg), None, "error", Some(code), textHash);
        Outcome(w.(cache := look.after, log := w.log + [rec]), TranslationFailed(code, limits), Some(sent))
  }

  // ---------------------------------------------------------------- what a request does

  /** Without a signed-in user the answer is 401 and nothing at all changes. */
  lemma UnauthorizedChangesNothing(w: World, req: Request, cfg: Config, hash: string -> string, fx: Effects)
    requires w.cache.Valid() && req.userId.None?
    ensures Handle(w, req, cfg, hash, fx) == Outcome(w, Unauthorized, None)
  {
  }

  /**
   * Both limiters are charged before either verdict is read, so a request the
   * user limiter refuses still spends the address budget (and the other way
   * round); the address limiter is skipped when no address is found. Either
   * refusal answers 429 before the body is looked at, leaving the cache and
   * the records alone.
   */
  lemma LimitersChargedFirst(w: World, req: Request, cfg: Config, hash: string -> string, fx: Effects)
    requires w.cache.Valid() && req.userId.Some?
    ensures var o := Handle(w, req, cfg, hash, fx);
      var a := Admit(w.store, req.userId.value, req.headers, cfg, fx.arrival);
      && o.world.store == a.store
      && (!Admitted(a.limits) <==> o.response == TooManyRequests(a.limits))
      && (!Admitted(a.limits) ==> o.world.cache == w.cache && o.world.log == w.log && o.sent.None?)
  {
  }

  /** A request the user limiter refuses is answered 429, and still spends one unit of its live address window. */
  lemma RefusedUserSpendsAddress(w: World, req: Request, cfg: Config, hash: string -> string, fx: Effects)
    requires w.cache.Valid() && req.userId.Some? && GetClientIp(req.headers).Some?
    requires !Admit(w.store, req.userId.value, req.headers, cfg, fx.arrival).limits.user.ok
    requires var ik := IpKey(GetClientIp(req.headers).value);
      ik in w.store && !RateLimit.Expired(w.store[ik], fx.arrival) && w.store[ik].count < IpRateLimit(cfg.ip).maxRequests.value
    ensures var o := Handle(w, req, cfg, hash, fx);
      var ik := IpKey(GetClientIp(req.headers).value);
      && o.response.TooManyRequests?
      && ik in o.world.store && o.world.store[ik] == RateLimit.Hit(w.store[ik].count + 1, w.store[ik].resetAt)
  {
    LimitersChargedFirst(w, req, cfg, hash, fx);
    AdmitChargesBoth(w.store, req.userId.value, req.headers, cfg, fx.arrival);
  }

  /** The first failing check decides the answer. */
  lemma ValidationDecides(w: World, req: Request, cfg: Config, hash: string -> string, fx: Effects)
    requires w.cache.Valid() && req.userId.Some?
    requires Admitted(Admit(w.store, req.userId.value, req.headers, cfg, fx.arrival).limits)
    ensures var o := Handle(w, req, cfg, hash, fx);
      var v := Validate(req.body, MaxChars(cfg.maxCharsEnv));
      && (v.Failure? ==> o.response == v.error)
      && (v.Success? && (cfg.salt.None? || cfg.salt.value == "") ==> o.response == NotConfigured)
      && (v.Success? && cfg.salt.Some? && cfg.salt.value != "" && ProviderName(cfg) != LibreTranslate.ProviderName ==>
            o.response == ProviderUnavailable("Unsupported TRANSLATION_PROVIDER: " + ProviderName(cfg)))
  {
  }

  /** The conditions under which a request reaches the cache lookup. */
  predicate Reaches(w: World, req: Request, cfg: Config, fx: Effects)
  {
    && req.userId.Some?
    && Admitted(Admit(w.store, req.userId.value, req.headers, cfg, fx.arrival).limits)
    && Validate(req.body, MaxChars(cfg.maxCharsEnv)).Success?
    && cfg.salt.Some? && cfg.salt.value != ""
    && ProviderName(cfg) == LibreTranslate.ProviderName
  }

  /**
   * On a cache hit the engine is not asked and the cache is not written; one
   * success record with provider `cache` and latency 0 is added; the answer
   * says `cached`, latency 0 and the provider the entry came from.
   */
  lemma CacheHit(w: World, req: Request, cfg: Config, hash: string -> string, fx: Effects)
    requires w.cache.Valid() && Reaches(w, req, cfg, fx)
    ensures var f := Validate(req.body, MaxChars(cfg.maxCharsEnv)).value;
      var h := hash(cfg.salt.value + f.text);
      var key := CacheKey(req.userId.value, f.sourceLang, f.targetLang, h);
      var o := Handle(w, req, cfg, hash, fx);
      key in w.cache.entries && w.cache.entries[key].expiresAt > fx.lookup ==>
        var c := TranslationCache.Unstamp(w.cache.entries[key]);
        && o.sent.None?
        && o.world.cache == w.cache
        && o.world.log == w.log + [Record(req.userId.value, f.sourceLang, c.detectedSourceLang, f.targetLang, |f.text|,
                                          "cache", Some(0), "success", None, h)]
        && o.response.Translated? && o.response.cached && o.response.latencyMs == Some(0)
        && o.response.provider == c.provider && o.response.translatedText == c.translatedText
  {
    ReachesServe(w, req, cfg, hash, fx);
  }

  /**
   * On a miss that the engine answers, the request goes to the configured
   * engine, the result is cached under the request's key, one success record
   * with the engine's name and latency is added, and the answer is not
   * marked cached.
   */
  lemma MissThenSuccess(w: World, req: Request, cfg: Config, hash: string -> string, fx: Effects)
    requires w.cache.Valid() && Reaches(w, req, cfg, fx)
    ensures var f := Validate(req.body, MaxChars(cfg.maxCharsEnv)).value;
      var h := hash(cfg.salt.value + f.text);
      var key := CacheKey(req.userId.value, f.sourceLang, f.targetLang, h);
      var input := LibreTranslate.TranslateInput(f.text, f.sourceLang, f.targetLang);
      var o := Handle(w, req, cfg, hash, fx);
      var look := TranslationCache.GetSpec(w.cache, key, fx.lookup);
      look.hit.None? && LibreTranslate.Classify(input, fx.fetch, fx.latencyMs).Success? ==>
        var res := LibreTranslate.Classify(input, fx.fetch, fx.latencyMs).value;
        && o.sent.Some? && o.sent.value.body == LibreTranslate.Request(input)
        && o.sent.value.url == LibreTranslate.TranslateUrl(LibreTranslate.NormalizeBaseUrl(BaseUrl(cfg)))
        && o.world.cache == TranslationCache.SetSpec(look.after, key,
                              TranslationCache.Cached(res.translatedText, LibreTranslate.ProviderName, res.detectedSourceLang), fx.finished,
                              TranslationCache.TtlMs(cfg.cache.ttlEnv), TranslationCache.MaxEntries(cfg.cache.maxEnv))
        && o.world.log == w.log + [Record(req.userId.value, f.sourceLang, res.detectedSourceLang, f.targetLang, |f.text|,
                                          LibreTranslate.ProviderName, Some(fx.latencyMs), "success", None, h)]
        && o.response == Translated(res.translatedText, res.detectedSourceLang, |f.text|, Some(fx.latencyMs), LibreTranslate.ProviderName, false,
                                    Admit(w.store, req.userId.value, req.headers, cfg, fx.arrival).limits)
  {
    ReachesServe(w, req, cfg, hash, fx);
  }

  /**
   * On a miss the engine fails, nothing is cached, one error record carries
   * the engine's message as its code with no latency and no detected
   * language, and the answer is 502 with that code.
   */
  lemma MissThenFailure(w: World, req: Request, cfg: Config, hash: string -> string, fx: Effects)
    requires w.cache.Valid() && Reaches(w, req, cfg, fx)
    ensures var f := Validate(req.body, MaxChars(cfg.maxCharsEnv)).value;
      var h := hash(cfg.salt.value + f.text);
      var key := CacheKey(req.userId.value, f.sourceLang, f.targetLang, h);
      var input := LibreTranslate.TranslateInput(f.text, f.sourceLang, f.targetLang);
      var o := Handle(w, req, cfg, hash, fx);
      var look := TranslationCache.GetSpec(w.cache, key, fx.lookup);
      look.hit.None? && LibreTranslate.Classify(input, fx.fetch, fx.latencyMs).Failure? ==>
        var code := LibreTranslate.Message(LibreTranslate.Classify(input, fx.fetch, fx.latencyMs).error);
        && o.sent.Some?
        && o.world.cache == look.after
        && o.world.log == w.log + [Record(req.userId.value, f.sourceLang, None, f.targetLang, |f.text|,
                                          LibreTranslate.ProviderName, None, "error", Some(code), h)]
        && o.response == TranslationFailed(code, Admit(w.store, req.userId.value, req.headers, cfg, fx.arrival).limits)
        && Status(o.response) == 502
  {
    var a := Admit(w.store, req.userId.value, req.headers, cfg, fx.arrival);
    var f := Validate(req.body, MaxChars(cfg.maxCharsEnv)).value;
    ReachesServe(w, req, cfg, hash, fx);
    ServeFailure(w.(store := a.store), req.userId.value, f, cfg, hash(cfg.salt.value + f.text), fx, a.limits);
    assert ProviderName(cfg) == LibreTranslate.ProviderName;
    assert Handle(w, req, cfg, hash, fx) == Serve(w.(store := a.store), req.userId.value, f, cfg, hash(cfg.salt.value + f.text), fx, a.limits);
  }

  /** `Serve` on a miss that the engine fails: the part of `MissThenFailure` after the checks. */
  lemma ServeFailure(w: World, userId: string, f: Fields, cfg: Config, textHash: string, fx: Effects, limits: Limits)
    requires w.cache.Valid()
    ensures var key := CacheKey(userId, f.sourceLang, f.targetLang, textHash);
      var input := LibreTranslate.TranslateInput(f.text, f.sourceLang, f.targetLang);
      var o := Serve(w, userId, f, cfg, textHash, fx, limits);
      var look := TranslationCache.GetSpec(w.cache, key, fx.lookup);
      look.hit.None? && LibreTranslate.Classify(input, fx.fetch, fx.latencyMs).Failure? ==>
        var code := LibreTranslate.Message(LibreTranslate.Classify(input, fx.fetch, fx.latencyMs).error);
        && o.sent.Some?
        && o.world.cache == look.after
        && o.world.log == w.log + [Record(userId, f.sourceLang, None, f.targetLang, |f.text|,
                                          ProviderName(cfg), None, "error", Some(code), textHash)]
        && o.response == TranslationFailed(code, limits)
  {
  }

  /**
   * A request that stops before the cache lookup (no user, a limiter refusal,
   * a failed check, no salt, an unknown provider) touches neither the cache
   * nor the records nor the engine, and at most the limiter store changes.
   */
  lemma StoppedEarlyTouchesNothing(w: World, req: Request, cfg: Config, hash: string -> string, fx: Effects)
    requires w.cache.Valid() && !Reaches(w, req, cfg, fx)
    ensures var o := Handle(w, req, cfg, hash, fx);
      o.world.cache == w.cache && o.world.log == w.log && o.sent.None? && !o.response.Translated?
  {
  }

  /** A record is written exactly for a request that reached the lookup, and it is a success exactly when it has no error code. */
  lemma RecordsOnlyForServedRequests(w: World, req: Request, cfg: Config, hash: string -> string, fx: Effects)
    requires w.cache.Valid()
    ensures var o := Handle(w, req, cfg, hash, fx);
      && (|o.world.log| == |w.log| + 1 <==> Reaches(w, req, cfg, fx))
      && (|o.world.log| == |w.log| + 1 ==>
            var rec := o.world.log[|w.log|];
            && rec.userId == req.userId.value
            && (rec.status == "success" <==> rec.errorCode.None?)
            && (rec.status == "success" <==> o.response.Translated?))
  {
  }

  /** The cache invariant the server keeps: well formed, within its bound, and free of the empty key. */
  ghost predicate CacheBounded(s: TranslationCache.Snapshot, cfg: Config)
  {
    s.Valid() && s.Size() <= TranslationCache.MaxEntries(cfg.cache.maxEnv) && "" !in s.entries
  }

  /** A request that passed every check is served against the state the limiters left. */
  lemma ReachesServe(w: World, req: Request, cfg: Config, hash: string -> string, fx: Effects)
    requires w.cache.Valid() && Reaches(w, req, cfg, fx)
    ensures var a := Admit(w.store, req.userId.value, req.headers, cfg, fx.arrival);
      var f := Validate(req.body, MaxChars(cfg.maxCharsEnv)).value;
      Handle(w, req, cfg, hash, fx) == Serve(w.(store := a.store), req.userId.value, f, cfg, hash(cfg.salt.value + f.text), fx, a.limits)
  {
  }

  /** Serving keeps the cache within its bound: the lookup only deletes, and the keys are never empty. */
  lemma ServeKeepsCacheBounded(w: World, userId: string, f: Fields, cfg: Config, textHash: string, fx: Effects, limits: Limits)
    requires CacheBounded(w.cache, cfg)
    ensures CacheBounded(Serve(w, userId, f, cfg, textHash, fx, limits).world.cache, cfg)
  {
    var key := CacheKey(userId, f.sourceLang, f.targetLang, textHash);
    var look := TranslationCache.GetSpec(w.cache, key, fx.lookup);
    assert look.after.Size() <= w.cache.Size() && "" !in look.after.entries;
    var input := LibreTranslate.TranslateInput(f.text, f.sourceLang, f.targetLang);
    var res := LibreTranslate.Classify(input, fx.fetch, fx.latencyMs);
    if look.hit.None? && res.Success? {
      TranslationCache.SetKeepsBound(look.after, key,
        TranslationCache.Cached(res.value.translatedText, res.value.provider, res.value.detectedSourceLang), fx.finished,
        TranslationCache.TtlMs(cfg.cache.ttlEnv), TranslationCache.MaxEntries(cfg.cache.maxEnv));
    }
  }

  /** Every request keeps the cache within `CACHE_MAX_ENTRIES`, because its keys are never empty. */
  lemma HandleKeepsCacheBounded(w: World, req: Request, cfg: Config, hash: string -> string, fx: Effects)
    requires CacheBounded(w.cache, cfg)
    ensures CacheBounded(Handle(w, req, cfg, hash, fx).world.cache, cfg)
  {
    if Reaches(w, req, cfg, fx) {
      var a := Admit(w.store, req.userId.value, req.headers, cfg, fx.arrival);
      var f := Validate(req.body, MaxChars(cfg.maxCharsEnv)).value;
      ReachesServe(w, req, cfg, hash, fx);
      ServeKeepsCacheBounded(w.(store := a.store), req.userId.value, f, cfg, hash(cfg.salt.value + f.text), fx, a.limits);
    }
  }

  /** After a miss that the engine answered, the same lookup hits until the entry expires. */
  lemma ServeMissThenHit(w: World, userId: string, f: Fields, cfg: Config, textHash: string, fx: Effects, limits: Limits,
                         w2: World, fx2: Effects, limits2: Limits)
    requires CacheBounded(w.cache, cfg)
    requires Serve(w, userId, f, cfg, textHash, fx, limits).sent.Some? && Serve(w, userId, f, cfg, textHash, fx, limits).response.Translated?
    requires w2.cache == Serve(w, userId, f, cfg, textHash, fx, limits).world.cache
    requires fx.finished <= fx2.lookup < fx.finished + TranslationCache.TtlMs(cfg.cache.ttlEnv)
    ensures var o := Serve(w, userId, f, cfg, textHash, fx, limits);
      var o2 := Serve(w2, userId, f, cfg, textHash, fx2, limits2);
      && o2.sent.None? && o2.response.Translated? && o2.response.cached
      && o2.response.translatedText == o.response.translatedText
      && o2.response.detectedSourceLang == o.response.detectedSourceLang
  {
    var key := CacheKey(userId, f.sourceLang, f.targetLang, textHash);
    var look := TranslationCache.GetSpec(w.cache, key, fx.lookup);
    var input := LibreTranslate.TranslateInput(f.text, f.sourceLang, f.targetLang);
    var res := LibreTranslate.Classify(input, fx.fetch, fx.latencyMs).value;
    var value := TranslationCache.Cached(res.translatedText, res.provider, res.detectedSourceLang);
    TranslationCache.SizeIsOrderLength(look.after);
    TranslationCache.SetThenGet(look.after, key, value, fx.finished,
      TranslationCache.TtlMs(cfg.cache.ttlEnv), TranslationCache.MaxEntries(cfg.cache.maxEnv), fx2.lookup);
    assert TranslationCache.GetSpec(w2.cache, key, fx2.lookup).hit == Some(value);
  }

  /**
   * A translation is served from the cache to the same user asking again for
   * the same text and languages before the entry expires.
   */
  lemma RepeatIsServedFromCache(w: World, req: Request, cfg: Config, hash: string -> string, fx: Effects, fx2: Effects)
    requires CacheBounded(w.cache, cfg) && Reaches(w, req, cfg, fx)
    requires Handle(w, req, cfg, hash, fx).sent.Some? && Handle(w, req, cfg, hash, fx).response.Translated?
    requires Reaches(Handle(w, req, cfg, hash, fx).world, req, cfg, fx2)
    requires fx.finished <= fx2.lookup < fx.finished + TranslationCache.TtlMs(cfg.cache.ttlEnv)
    ensures var o2 := Handle(Handle(w, req, cfg, hash, fx).world, req, cfg, hash, fx2);
      && o2.sent.None? && o2.response.Translated? && o2.response.cached
      && o2.response.translatedText == Handle(w, req, cfg, hash, fx).response.translatedText
      && o2.response.detectedSourceLang == Handle(w, req, cfg, hash, fx).response.detectedSourceLang
  {
    var userId := req.userId.value;
    var f := Validate(req.body, MaxChars(cfg.maxCharsEnv)).value;
    var h := hash(cfg.salt.value + f.text);
    var a := Admit(w.store, userId, req.headers, cfg, fx.arrival);
    ReachesServe(w, req, cfg, hash, fx);
    var o := Handle(w, req, cfg, hash, fx);
    var a2 := Admit(o.world.store, userId, req.headers, cfg, fx2.arrival);
    ReachesServe(o.world, req, cfg, hash, fx2);
    ServeMissThenHit(w.(store := a.store), userId, f, cfg, h, fx, a.limits, o.world.(store := a2.store), fx2, a2.limits);
  }

  // ---------------------------------------------------------------- the server

  /** The module-level state the route shares between requests. */
  class Server {
    const limiter: RateLimit.Limiter
    const cache: TranslationCache.Cache
    var log: seq<Record>

    ghost predicate Valid()
      reads this, cache
    {
      cache.Valid()
    }

    function State(): World
      reads this, limiter, cache
    {
      World(limiter.store, cache.Model(), log)
    }

    constructor ()
      ensures Valid() && State() == World(map[], TranslationCache.Snapshot(map[], []), [])
    {
      limiter := new RateLimit.Limiter();
      cache := new TranslationCache.Cache();
      log := [];
    }

    /** `POST(request)`. */
    method Post(req: Request, cfg: Config, hash: string -> string, fx: Effects)
      returns (response: Response, sent: Option<LibreTranslate.Outbound>)
      requires Valid()
      modifies this, limiter, cache
      ensures Valid()
      ensures Outcome(State(), response, sent) == Handle(old(State()), req, cfg, hash, fx)
    {
      ghost var w := State();
      if req.userId.None? {
        return Unauthorized, None;
      }
      var userId := req.userId.value;
      var rlUser := limiter.RateLimit(UserKey(userId), RateLimit.Options(None, None), cfg.limits, fx.arrival);
      var ip := GetClientIp(req.headers);
      var rlIp: Option<RateLimit.RateLimitResult> := None;
      if ip.Some? {
        var r := limiter.RateLimit(IpKey(ip.value), IpRateLimit(cfg.ip), cfg.limits, fx.arrival);
        rlIp := Some(r);
      }
      var limits := Limits(rlUser, rlIp);
      assert Admission(limiter.store, limits) == Admit(w.store, userId, req.headers, cfg, fx.arrival);
      if !rlUser.ok || (rlIp.Some? && !rlIp.value.ok) {
        return TooManyRequests(limits), None;
      }
      response, sent := ProceedAdmitted(userId, req.body, cfg, hash, fx, limits);
    }

    /** The checks after admission, then the lookup and the engine: `Proceed` on the objects. */
    method ProceedAdmitted(userId: string, body: Option<Body>, cfg: Config, hash: string -> string, fx: Effects, limits: Limits)
      returns (response: Response, sent: Option<LibreTranslate.Outbound>)
      requires Valid()
      modifies this, cache
      ensures Valid()
      ensures Outcome(State(), response, sent) == Proceed(old(State()), userId, body, cfg, hash, fx, limits)
    {
      var checked := Validate(body, MaxChars(cfg.maxCharsEnv));
      if checked.Failure? {
        return checked.error, None;
      }
      var f := checked.value;
      if cfg.salt.None? || cfg.salt.value == "" {
        return NotConfigured, None;
      }
      var providerName := ProviderName(cfg);
      if providerName != LibreTranslate.ProviderName {
        return ProviderUnavailable("Unsupported TRANSLATION_PROVIDER: " + providerName), None;
      }
      var provider := new LibreTranslate.LibreTranslateProvider(BaseUrl(cfg));
      response, sent := ServeFields(provider, userId, f, cfg, hash(cfg.salt.value + f.text), fx, limits);
    }

    /** The cache lookup, then the engine on a miss: `Serve` on the objects. */
    method ServeFields(provider: LibreTranslate.LibreTranslateProvider, userId: string, f: Fields, cfg: Config, textHash: string, fx: Effects, limits: Limits)
      returns (response: Response, sent: Option<LibreTranslate.Outbound>)
      requires Valid() && provider.baseUrl == LibreTranslate.NormalizeBaseUrl(BaseUrl(cfg))
      modifies this, cache
      ensures Valid()
      ensures Outcome(State(), response, sent) == Serve(old(State()), userId, f, cfg, textHash, fx, limits)
    {
      var charsIn := |f.text|;
      var key := CacheKey(userId, f.sourceLang, f.targetLang, textHash);
      var cached := cache.Get(key, fx.lookup);
      if cached.Some? {
        var c := cached.value;
        log := log + [Record(userId, f.sourceLang, c.detectedSourceLang, f.targetLang, charsIn, "cache", Some(0), "success", None, textHash)];
        return Translated(c.translatedText, c.detectedSourceLang, charsIn, Some(0), c.provider, true, limits), None;
      }
      var input := LibreTranslate.TranslateInput(f.text, f.sourceLang, f.targetLang);
      var outbound, result := provider.Translate(input, cfg.timeoutEnv, fx.fetch, fx.latencyMs);
      sent := Some(outbound);
      match result {
        case Success(res) =>
          cache.Set(key, TranslationCache.Cached(res.translatedText, res.provider, res.detectedSourceLang), fx.finished, cfg.cache);
          log := log + [Record(userId, f.sourceLang, res.detectedSourceLang, f.targetLang, charsIn, res.provider, res.latencyMs, "success", None, textHash)];
          response := Translated(res.translatedText, res.detectedSourceLang, charsIn, res.latencyMs, res.provider, false, limits);
        case Failure(e) =>
          var errorCode := ErrorCode(ErrorValue(LibreTranslate.Message(e)));
          log := log + [Record(userId, f.sourceLang, None, f.targetLang, charsIn, ProviderName(cfg), None, "error", Some(errorCode), textHash)];
          response := TranslationFailed(errorCode, limits);
      }
    }
  }
}
