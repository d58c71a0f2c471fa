/**
 * The LibreTranslate adapter of src/lib/translation/providers/libretranslate.ts.
 *
 * The HTTP exchange itself is not modelled: what `fetch` and `res.json()` did
 * is the input `FetchOutcome`, and the measured latency is an input too. What
 * is modelled is the normalised base URL, the request the adapter sends, and
 * the ladder that turns the outcome into a result or an error code.
 */
module LibreTranslate {
  import opened Wrappers
  import Env

  const DefaultTimeoutMs: int := 10000
  const ProviderName: string := "libretranslate"

  /** The argument of `translate`. */
  datatype TranslateInput = TranslateInput(text: string, sourceLang: string, targetLang: string)

  /** `TranslateResult` of src/lib/translation/types.ts (`None` is `null` or absent). */
  datatype TranslateResult = TranslateResult(
    translatedText: string,
    detectedSourceLang: Option<string>,
    latencyMs: Option<int>,
    provider: string)

  /** The JSON body posted to the engine. */
  datatype RequestBody = RequestBody(q: string, source: string, target: string, format: string)

  /** The single request `translate` makes: where, what, and how long it may take. */
  datatype Outbound = Outbound(url: string, body: RequestBody, timeoutMs: int)

  /**
   * What reading the engine's body gave: its `translatedText` field as an
   * optional string, or the message of what reading it threw (`res.json()`
   * rejecting, or a `null` body whose field access throws).
   */
  datatype ParsedBody = Json(translatedText: Option<string>) | NotJson(message: string)

  /** How the `fetch` call ended. */
  datatype FetchOutcome =
    | Aborted                                  // the timeout fired: an `AbortError`
    | NetworkFailure                           // any other rejection of `fetch`
    | Responded(status: nat, body: ParsedBody)

  /** The errors `translate` throws, each carrying the message the caller sees. */
  datatype ProviderError =
    | Timeout
    | NetworkError
    | HttpStatus(status: nat)
    | BadResponse
    | UnreadableBody(message: string)          // reading the body threw; its message is opaque

  /** `PROVIDER_TIMEOUT_MS`: a positive parsed value, else ten seconds. */
  function TimeoutMs(env: Option<int>): (r: int)
    ensures r > 0
    ensures r == (if env.Some? && env.value > 0 then env.value else 10000)
  {
    Env.PositiveOr(env, DefaultTimeoutMs)
  }

  /** `Response.ok`: the status is in the 2xx range. */
  predicate IsOk(status: nat) { 200 <= status <= 299 }

  function Digit(d: nat): (c: char)
    requires d < 10
    ensures '0' <= c <= '9' && c as int - '0' as int == d
  {
    "0123456789"[d]
  }

  predicate AllDigits(s: string) { forall i :: 0 <= i < |s| ==> '0' <= s[i] <= '9' }

  /** A number in decimal, as a template literal renders it. */
  function Decimal(n: nat): (s: string)
    ensures |s| >= 1 && AllDigits(s)
    ensures n >= 10 ==> s[0] != '0'
    ensures n < 10 ==> |s| == 1
    decreases n
  {
    if n < 10 then [Digit(n)] else Decimal(n / 10) + [Digit(n % 10)]
  }

  /** The value of a string of decimal digits. */
  function DecimalValue(s: string): nat
    requires AllDigits(s)
    decreases |s|
  {
    if s == [] then 0 else DecimalValue(s[..|s| - 1]) * 10 + (s[|s| - 1] as int - '0' as int)
  }

  lemma {:induction false} DecimalRoundTrip(n: nat)
    ensures DecimalValue(Decimal(n)) == n
    decreases n
  {
    if n >= 10 {
      DecimalRoundTrip(n / 10);
      var s := Decimal(n);
      assert s[..|s| - 1] == Decimal(n / 10);
    }
  }

  /** `err.message` of each thrown error. */
  function Message(e: ProviderError): (m: string)
    ensures e.UnreadableBody? ==> m == e.message
    ensures !e.UnreadableBody? ==> |m| > 15 && m[..15] == "LIBRETRANSLATE_"
  {
    match e
    case Timeout => "LIBRETRANSLATE_TIMEOUT"
    case NetworkError => "LIBRETRANSLATE_NETWORK_ERROR"
    case HttpStatus(s) => "LIBRETRANSLATE_HTTP_" + Decimal(s)
    case BadResponse => "LIBRETRANSLATE_BAD_RESPONSE"
    case UnreadableBody(m) => m
  }

  /** The message of an HTTP error names the status, so two statuses never share one. */
  lemma HttpMessageNamesStatus(s1: nat, s2: nat)
    requires Message(HttpStatus(s1)) == Message(HttpStatus(s2))
    ensures s1 == s2
  {
    var prefix := "LIBRETRANSLATE_HTTP_";
    assert Decimal(s1) == Message(HttpStatus(s1))[|prefix|..];
    assert Decimal(s2) == Message(HttpStatus(s2))[|prefix|..];
    DecimalRoundTrip(s1);
    DecimalRoundTrip(s2);
  }

  /** `baseUrl.replace(/\/$/, "")`: one trailing slash, if there is one, is removed. */
  function NormalizeBaseUrl(url: string): (r: string)
    ensures |url| > 0 && url[|url| - 1] == '/' ==> r + "/" == url
    ensures (|url| == 0 || url[|url| - 1] != '/') ==> r == url
  {
    if |url| > 0 && url[|url| - 1] == '/' then url[..|url| - 1] else url
  }

  /** Exactly one slash goes: a doubled one leaves one behind. */
  lemma NormalizeStripsOneSlash(url: string)
    ensures NormalizeBaseUrl(url + "/") == url
    ensures NormalizeBaseUrl(url + "//") == url + "/"
  {
    assert (url + "//")[..|url| + 1] == url + "/";
    assert (url + "/")[..|url|] == url;
  }

  /** The request body: `q`, `source` and `target` from the input, plain-text format. */
  function Request(input: TranslateInput): (b: RequestBody)
    ensures b.q == input.text && b.source == input.sourceLang && b.target == input.targetLang
    ensures b.format == "text"
  {
    RequestBody(input.text, input.sourceLang, input.targetLang, "text")
  }

  /**
   * What `translate` does with the outcome of its single `fetch`: map the
   * failure to its error, else build the result.
   */
  function Classify(input: TranslateInput, outcome: FetchOutcome, latencyMs: int): (r: Result<TranslateResult, ProviderError>)
    ensures outcome.Aborted? <==> r == Failure(Timeout)
    ensures outcome.NetworkFailure? <==> r == Failure(NetworkError)
    ensures outcome.Responded? && !IsOk(outcome.status) ==> r == Failure(HttpStatus(outcome.status))
    ensures (outcome.Responded? && IsOk(outcome.status) && outcome.body.Json? &&
             (outcome.body.translatedText.None? || outcome.body.translatedText == Some(""))) ==> r == Failure(BadResponse)
    ensures outcome.Responded? && IsOk(outcome.status) && outcome.body.NotJson? ==> r == Failure(UnreadableBody(outcome.body.message))
    ensures r.Success? <==>
              outcome.Responded? && IsOk(outcome.status) && outcome.body.Json? &&
              outcome.body.translatedText.Some? && outcome.body.translatedText.value != ""
    ensures r.Success? ==>
              && r.value.provider == ProviderName
              && Some(r.value.translatedText) == outcome.body.translatedText && r.value.translatedText != ""
              && r.value.latencyMs == Some(latencyMs)
              && (r.value.detectedSourceLang.None? <==> input.sourceLang == "auto")
              && (input.sourceLang != "auto" ==> r.value.detectedSourceLang == Some(input.sourceLang))
  {
    match outcome
    case Aborted => Failure(Timeout)
    case NetworkFailure => Failure(NetworkError)
    case Responded(status, body) =>
      if !IsOk(status) then Failure(HttpStatus(status))
      else match body
        case NotJson(m) => Failure(UnreadableBody(m))
        case Json(translatedText) =>
          if translatedText.None? || translatedText.value == "" then Failure(BadResponse)
          else Success(TranslateResult(
            translatedText.value,
            if input.sourceLang == "auto" then None else Some(input.sourceLang),
            Some(latencyMs),
            ProviderName))
  }

  /** `${baseUrl}/translate`: the address the request is posted to. */
  function TranslateUrl(baseUrl: string): (u: string)
    ensures |u| == |baseUrl| + 10 && u[..|baseUrl|] == baseUrl && u[|baseUrl|..] == "/translate"
  {
    baseUrl + "/translate"
  }

  /** `LibreTranslateProvider`: an engine at a fixed base URL. */
  class LibreTranslateProvider {
    const baseUrl: string

    constructor (baseUrl: string)
      ensures this.baseUrl == NormalizeBaseUrl(baseUrl)
    {
      this.baseUrl := NormalizeBaseUrl(baseUrl);
    }

    /**
     * `translate(input)`: post `Request(input)` to `TranslateUrl(baseUrl)` with a timeout
     * of `TimeoutMs(timeoutEnv)`, then classify what came back. The network
     * and the clock are the inputs `outcome` and `latencyMs`.
     */
    method Translate(input: TranslateInput, timeoutEnv: Option<int>, outcome: FetchOutcome, latencyMs: int)
      returns (sent: Outbound, r: Result<TranslateResult, ProviderError>)
      ensures sent.url == TranslateUrl(baseUrl) && sent.body == Request(input)
      ensures sent.timeoutMs == TimeoutMs(timeoutEnv) && sent.timeoutMs > 0
      ensures r == Classify(input, outcome, latencyMs)
    {
      sent := Outbound(TranslateUrl(baseUrl), Request(input), TimeoutMs(timeoutEnv));
      r := Classify(input, outcome, latencyMs);
    }
  }
}
