# Translation request path, modelled in Dafny

This project models how the translation web application handles a translation request. The signed-in user posts a text. The handler then:

1. charges two fixed-window rate limiters, one keyed by user and one by client address;
2. validates the body against a length limit and a language whitelist;
3. looks the text up in an in-process TTL cache keyed by user, language pair and a salted hash of the text;
4. on a miss, asks a LibreTranslate engine;
5. appends one metadata-only record per served request to a `translations` table.

Beside this path, the project models the CSV encoding of the history export and the route guard that sends anonymous visitors to the login page.

| module | models |
|---|---|
| `Wrappers`, `Env` | `Option`/`Result`. The "positive parsed value, else default" rule of every numeric knob, and the `X \|\| default` rule of every string knob. |
| `RateLimit` | `src/lib/rate-limit.ts`. `Call` is one `rateLimit` call on the store as a value. The `Limiter` class holds the `STORE` map and updates it in place. `MaybePrune` is a loop that deletes keys one at a time. |
| `TranslationCache` | `src/lib/translation-cache.ts`. A JavaScript `Map` is an entry `map` plus the insertion order of its keys (`Snapshot`). `GetSpec`, `SetSpec` and `PruneSpec` are the operations on values. The `Cache` class performs them in place: `RemoveExpired` and `EvictOldest` are the two loops of `prune`. |
| `Languages` | `src/lib/languages.ts`: the ten codes and the membership test. |
| `LibreTranslate` | `src/lib/translation/providers/libretranslate.ts`: base-URL normalisation, the outbound request, the timeout knob and the ladder from the fetch outcome to a result or an error. |
| `TranslateHandler` | `src/app/api/translate/route.ts`: `getClientIp`, `getIpRateLimit`, the cache key and the `POST` pipeline. |
| `CsvExport` | `csvEscape` and `toCsv` of `src/app/api/translations/export/route.ts`, and a reader for exactly that dialect. |
| `Middleware` | The decision taken by `middleware.ts`. |

`TranslateHandler.Handle` is `POST` as a function from the shared state before a request to the state after it (`World`: limiter store, cache, record log), the response and the outbound engine request (if any). It is layered as `Handle`, then `Proceed` (after both limiters admit), then `Serve` (after every check passes). `TranslateHandler.Server.Post` runs the same steps on the `Limiter` and `Cache` objects. Its `ensures` ties it to `Handle`.

Some facts shown while modelling:

- The route guard's decision uses a plain `startsWith`. It answers "protected" for `/translated` and `/history2`, and not for `/translations`, whose tenth character differs from `/translate`'s (`Middleware.PrefixExamples`). In the application the `matcher` of `middleware.ts` runs the guard only on `/translate/...`, `/history/...` and `/login`, so it never runs on any of those three paths, and none of them is protected.
- The eviction loop of the cache stops at an empty oldest key (`if (!firstKey) break`). A cache holding `""` as its oldest key can therefore grow past its bound (`TranslationCache.EmptyOldestKeyStopsEviction`). The handler cannot reach this, because all its keys begin with `t:` (`TranslateHandler.HandleKeepsCacheBounded`).
- A user refused by the user limiter still spends the address budget: both limiters are charged before either verdict is read (`TranslateHandler.AdmitChargesBoth`, `TranslateHandler.RefusedUserSpendsAddress`).

## Model

| member | source | states |
|---|---|---|
| Env.PositiveOr | src/lib/config.ts:1-5 | The parsed value when it is positive, otherwise the fallback; positive whenever the fallback is |
| Env.NonEmptyOr | src/lib/translation/index.ts:5 | A present, non-empty string wins; unset and empty both give the fallback |
| RateLimit.WindowMs | src/lib/rate-limit.ts:17-21 | `RATE_LIMIT_WINDOW_MS` if it parses to a positive value, else 60000; always positive |
| RateLimit.MaxRequests | src/lib/rate-limit.ts:23-27 | `RATE_LIMIT_REQUESTS` if it parses to a positive value, else 20; always positive |
| RateLimit.EffectiveWindow | src/lib/rate-limit.ts:40 | An explicit `windowMs` option wins whatever its value; otherwise the environment default |
| RateLimit.EffectiveMax | src/lib/rate-limit.ts:41 | An explicit `maxRequests` option wins whatever its value; otherwise the environment default |
| RateLimit.Pruned | src/lib/rate-limit.ts:29-37 | Below 5000 keys nothing changes. From 5000 on, exactly the windows with `resetAt <= now` go, and every live window stays unchanged |
| RateLimit.Admit | src/lib/rate-limit.ts:45-60 | The three branches after pruning; what each gives is stated by `FreshWindow`, `RejectionConsumesNothing` and `AdmitWithinWindow` |
| RateLimit.Call | src/lib/rate-limit.ts:39-61 | `remaining` is never negative, and is 0 on a rejection. The returned `resetAt` is the key's window end. Every other key keeps exactly what pruning left it |
| RateLimit.FreshWindow | src/lib/rate-limit.ts:47-50 | An absent or expired key gets `{1, now + windowMs}` and the answer `ok` with `max(0, maxRequests - 1)`, even when `maxRequests` is 0 |
| RateLimit.RejectionConsumesNothing | src/lib/rate-limit.ts:53-55 | A full live window answers `ok = false`, `remaining = 0` and its own `resetAt`, and stays as it was |
| RateLimit.AdmitWithinWindow | src/lib/rate-limit.ts:57-60 | A live window with room counts exactly one more call and keeps its `resetAt`; `remaining = max(0, maxRequests - count)` |
| RateLimit.CallKeepsCountsBounded | src/lib/rate-limit.ts:47-60 | With a fixed limit of at least one, every stored count stays between 1 and the limit |
| RateLimit.Replay | src/lib/rate-limit.ts:39-61 | One verdict per call of a run of calls on one key; `ReplayLiveWindow` and `ExactlyMaxPerWindow` state which are admitted |
| RateLimit.ReplayLiveWindow | src/lib/rate-limit.ts:53-60 | While a window is live, the i-th further call is admitted exactly when count + i is below the limit |
| RateLimit.ExactlyMaxPerWindow | src/lib/rate-limit.ts:47-60 | Within one window opened by the first call, exactly the first `maxRequests` calls are admitted and every later one is refused |
| RateLimit.Limiter.MaybePrune | src/lib/rate-limit.ts:29-37 | The loop over the keys leaves the store equal to `Pruned` of the old store |
| RateLimit.Limiter.RateLimit | src/lib/rate-limit.ts:39-61 | The new store and the result are those of `Call` with the effective window and limit |
| RateLimit.Limiter.constructor | src/lib/rate-limit.ts:6 | The store starts empty |
| TranslationCache.TtlMs | src/lib/translation-cache.ts:10-14 | `TRANSLATION_CACHE_TTL_MS` if it parses to a positive value, else 300000 |
| TranslationCache.MaxEntries | src/lib/translation-cache.ts:16-20 | `TRANSLATION_CACHE_MAX_ENTRIES` if it parses to a positive value, else 500 |
| TranslationCache.RemoveKeepsValid | src/lib/translation-cache.ts:44 | Deleting a key keeps the insertion order a duplicate-free list of exactly the stored keys |
| TranslationCache.PutKeepsValid | src/lib/translation-cache.ts:57 | Setting a key keeps the insertion order a duplicate-free list of exactly the stored keys |
| TranslationCache.PruneSpec | src/lib/translation-cache.ts:22-37 | Every remaining entry was stored unchanged and is live. The order is the live keys with the oldest dropped as the eviction loop counts them |
| TranslationCache.ExpireSpec | src/lib/translation-cache.ts:24-28 | The expiry loop keeps exactly the live keys, in their order |
| TranslationCache.EvictSpec | src/lib/translation-cache.ts:31-36 | The eviction loop drops keys from the front of the insertion order |
| TranslationCache.PruneIsExpireThenEvict | src/lib/translation-cache.ts:22-37 | `prune` is the expiry loop followed by the eviction loop |
| TranslationCache.GetSpec | src/lib/translation-cache.ts:39-52 | A hit happens exactly for a present key with `expiresAt > now`, and it returns the entry without its expiry. An expired key is deleted, and only that key; otherwise nothing changes |
| TranslationCache.SetSpec | src/lib/translation-cache.ts:54-63 | The cache stays well formed, and no entry but the one stored is added or changed. Its other effects are stated by `OverwriteKeepsPosition`, `SetNewKeyGoesLast`, `SetThenGet` and `SetKeepsBound` |
| TranslationCache.OverwriteKeepsPosition | src/lib/translation-cache.ts:57 | Overwriting a present key, within the bound, keeps its place in the order and stores the new value with `expiresAt = now + ttlMs` |
| TranslationCache.SetNewKeyGoesLast | src/lib/translation-cache.ts:57-62 | With room to spare a new key goes last, and nothing is pruned, expired entries included |
| TranslationCache.SetThenGet | src/lib/translation-cache.ts:54-63 | If the cache was within its bound, a value just stored reads back unchanged at every instant before `now + ttlMs` |
| TranslationCache.PruneKeepsNewKey | src/lib/translation-cache.ts:31-36 | With a bound of at least one, the newest live key survives eviction |
| TranslationCache.SetKeepsBound | src/lib/translation-cache.ts:54-63 | If the cache was within its bound and no stored key is empty, the size stays at most the bound after `set`, even when the key being stored is empty |
| TranslationCache.NothingExpired | src/lib/translation-cache.ts:24-28 | With no entry expired, the expiry loop changes nothing |
| TranslationCache.EmptyOldestKeyBlocksEviction | src/lib/translation-cache.ts:34 | An empty oldest key stops the eviction loop before it drops anything |
| TranslationCache.EmptyOldestKeyStopsEviction | src/lib/translation-cache.ts:31-36 | A full, all-live cache whose oldest key is `""` grows to bound + 1 when a new key is stored |
| TranslationCache.Cache.constructor | src/lib/translation-cache.ts:8 | The cache starts empty |
| TranslationCache.Cache.Delete | src/lib/translation-cache.ts:44 | `CACHE.delete` removes the key from the entries and from the order |
| TranslationCache.Cache.Store | src/lib/translation-cache.ts:57 | `CACHE.set` is `Put` on the state |
| TranslationCache.Cache.RemoveExpired | src/lib/translation-cache.ts:24-28 | The loop over the keys leaves the state equal to `ExpireSpec` of the old one |
| TranslationCache.Cache.EvictOldest | src/lib/translation-cache.ts:31-36 | The `while` loop leaves the state equal to `EvictSpec` of the old one |
| TranslationCache.Cache.Prune | src/lib/translation-cache.ts:22-37 | The two loops together give `PruneSpec` of the old state |
| TranslationCache.Cache.Get | src/lib/translation-cache.ts:39-52 | The answer and the new state are those of `GetSpec` |
| TranslationCache.Cache.Set | src/lib/translation-cache.ts:54-63 | The new state is that of `SetSpec` with the configured TTL and bound |
| Languages.IsSupportedLanguage | src/lib/languages.ts:18-22 | Membership in `LANGUAGE_CODES`, case-sensitive; `SupportedExactly` and `AutoAndUpperCaseRejected` characterise it |
| Languages.LanguageCodes | src/lib/languages.ts:16 | One code per entry of `TOP_LANGUAGES`, in the same order |
| Languages.LanguageCodesAre | src/lib/languages.ts:1-16 | The codes are pt, en, es, fr, de, it, ja, zh, ru, ar, in that order |
| Languages.SupportedExactly | src/lib/languages.ts:18-22 | A code is supported if and only if it is one of the ten |
| Languages.AutoAndUpperCaseRejected | src/lib/languages.ts:18-22 | `"auto"`, `"PT"` and `"Pt"` are not supported |
| Languages.CodesDistinct | src/lib/languages.ts:1-12 | The ten codes are pairwise distinct |
| Languages.SupportedHasNoColon | src/lib/languages.ts:20-22 | A supported code has two characters and no `:` |
| LibreTranslate.TimeoutMs | src/lib/translation/providers/libretranslate.ts:21-23 | `PROVIDER_TIMEOUT_MS` if it parses to a positive value, else 10000 |
| LibreTranslate.Decimal | src/lib/translation/providers/libretranslate.ts:53 | A number as a template literal writes it (`${res.status}`, and `${maxChars}` in the 413 text): decimal digits only, one digit below 10 and no leading zero from 10 on; `DecimalRoundTrip` shows it reads back as the number |
| LibreTranslate.DecimalRoundTrip | src/lib/translation/providers/libretranslate.ts:53 | A status written in decimal reads back as the same number |
| LibreTranslate.HttpMessageNamesStatus | src/lib/translation/providers/libretranslate.ts:52-54 | Two different HTTP statuses never give the same error message |
| LibreTranslate.NormalizeBaseUrl | src/lib/translation/providers/libretranslate.ts:11 | One trailing `/` is removed when present; otherwise the URL is unchanged |
| LibreTranslate.NormalizeStripsOneSlash | src/lib/translation/providers/libretranslate.ts:11 | Exactly one slash goes: `u/` gives `u`, and `u//` gives `u/` |
| LibreTranslate.Request | src/lib/translation/providers/libretranslate.ts:34-39 | `q`, `source` and `target` come from the input, and the format is `text` |
| LibreTranslate.IsOk | src/lib/translation/providers/libretranslate.ts:52 | `res.ok`: the status is from 200 to 299 |
| LibreTranslate.Message | src/lib/translation/providers/libretranslate.ts:43-60 | The error codes the adapter throws: each of its own starts with `LIBRETRANSLATE_`, and an unreadable body keeps the parser's message; `HttpMessageNamesStatus` shows distinct statuses give distinct codes |
| LibreTranslate.Classify | src/lib/translation/providers/libretranslate.ts:41-68 | Abort gives a timeout error and any other fetch failure a network error, each if and only if. A non-2xx status gives an HTTP error with that status. A missing or empty text gives a bad-response error, and a body that is not JSON gives the parser's message. Success happens if and only if a 2xx JSON body has a non-empty text; it then has provider `libretranslate`, that text and the latency, and a detected language that is null exactly for `auto` and is the source otherwise |
| LibreTranslate.LibreTranslateProvider.constructor | src/lib/translation/providers/libretranslate.ts:10-12 | The stored base URL is the normalised argument |
| LibreTranslate.TranslateUrl | src/lib/translation/providers/libretranslate.ts:30 | The address is the base URL followed by `/translate`; the provider and the handler both post there |
| LibreTranslate.LibreTranslateProvider.Translate | src/lib/translation/providers/libretranslate.ts:14-69 | It sends the request body to the endpoint with a positive timeout from the environment, and returns `Classify` of the outcome |
| CsvExport.CsvEscape | src/app/api/translations/export/route.ts:4-8 | `null` gives `""`. Every field is quoted, and its length is the value's length plus its number of quotes plus 2 |
| CsvExport.EscapeRoundTrip | src/app/api/translations/export/route.ts:7 | Stripping the outer quotes and collapsing each `""` pair gives back the value |
| CsvExport.DoubleQuotes | src/app/api/translations/export/route.ts:7 | `replaceAll` of `"` by `""`: the length grows by the number of quotes, and a value without quotes is unchanged |
| CsvExport.Join | src/app/api/translations/export/route.ts:11-13 | `Array.prototype.join`: the joined length is the parts' lengths plus one separator between each two parts, and the result starts with the first part |
| CsvExport.ToCsv | src/app/api/translations/export/route.ts:10-14 | The export starts with the header line and ends with a line feed; `ToCsvRoundTrip` states what it reads back as |
| CsvExport.ToCsvRoundTrip | src/app/api/translations/export/route.ts:10-14 | The export reads back as the column names followed by one record per row, with one field per column holding the row's value or empty |
| CsvExport.RecordShape | src/app/api/translations/export/route.ts:12 | Each record has `columns.length` fields, and a missing key gives an empty field |
| Middleware.AnyPrefix | middleware.ts:34 | True exactly when some listed prefix begins the path |
| Middleware.Decide | middleware.ts:6-52 | A login redirect carries the original path and happens only for a visitor on a protected path. A redirect away from `/login` happens only for a signed-in user, and never to an empty path |
| Middleware.ProtectedExactly | middleware.ts:4 | A path is protected exactly when it begins with `/translate` or `/history` |
| Middleware.IsProtected | middleware.ts:34 | The `some`/`startsWith` test over both prefixes; `ProtectedExactly` characterises it |
| Middleware.PrefixExamples | middleware.ts:34 | The decision's test is a plain prefix test: it answers true for `/translated` and `/history2`, and false for `/translations`, `/login`, `/` and `/Translate` |
| Middleware.UnconfiguredPassesThrough | middleware.ts:9-14 | Without both Supabase values every request passes through |
| Middleware.AnonymousSentToLogin | middleware.ts:36-41 | A visitor on a protected path is sent to `/login` with `redirect` set to the path |
| Middleware.SignedInLeavesLogin | middleware.ts:43-48 | A signed-in user on `/login` goes to the `redirect` parameter, or to `/translate` when it is absent or empty |
| Middleware.OtherwisePassThrough | middleware.ts:51 | Every other combination passes through |
| Middleware.RedirectsExclusive | middleware.ts:36-48 | The login page is never a protected path, so the two redirects never compete |
| Middleware.NoRedirectLoop | middleware.ts:36-51 | The login page is let through for visitors, and a user sent on from it is let through after at most one more hop |
| TranslateHandler.Leading | src/app/api/translate/route.ts:20 | The count of leading whitespace stops at a non-whitespace character |
| TranslateHandler.LeadingAreWhitespace | src/app/api/translate/route.ts:20 | Only whitespace is taken off the front by `trim` |
| TranslateHandler.TrailingAreWhitespace | src/app/api/translate/route.ts:20 | Only whitespace is taken off the back by `trim` |
| TranslateHandler.TrimStart | src/app/api/translate/route.ts:20 | The input without its leading whitespace, as counted by `Leading` |
| TranslateHandler.TrimEnd | src/app/api/translate/route.ts:20 | The input without its trailing whitespace, as counted by `Trailing` |
| TranslateHandler.Trim | src/app/api/translate/route.ts:20 | `String.prototype.trim`; the lemmas below state what it keeps and removes |
| TranslateHandler.TrimIsSlice | src/app/api/translate/route.ts:20 | The trimmed string is a contiguous part of the input that neither begins nor ends with whitespace |
| TranslateHandler.TrimEmptyIff | src/app/api/translate/route.ts:20-26 | A trimmed value is empty exactly when the input is all whitespace |
| TranslateHandler.TrimIdempotent | src/app/api/translate/route.ts:20-26 | Trimming twice is trimming once |
| TranslateHandler.TrimKeepsCommaFree | src/app/api/translate/route.ts:20 | Trimming a comma-free string leaves it comma-free |
| TranslateHandler.FirstHop | src/app/api/translate/route.ts:20 | `split(",")[0]` is the longest comma-free prefix |
| TranslateHandler.Header | src/app/api/translate/route.ts:18 | `headers.get(name)`: the value when the header is present, else none |
| TranslateHandler.TrimmedNonEmpty | src/app/api/translate/route.ts:23-26 | Some exactly when the trimmed header is non-empty, and then it is the trimmed value |
| TranslateHandler.GetClientIp | src/app/api/translate/route.ts:17-28 | An address found is non-empty and already trimmed |
| TranslateHandler.ClientIpPriority | src/app/api/translate/route.ts:17-28 | The trimmed first hop of `x-forwarded-for` when non-blank, else the trimmed `x-real-ip`, else the trimmed `cf-connecting-ip`, else none |
| TranslateHandler.BlankFirstHopIgnoresLaterHops | src/app/api/translate/route.ts:19-22 | A blank first hop is not skipped over to a later hop |
| TranslateHandler.IpRateLimit | src/app/api/translate/route.ts:30-40 | Both options are always set and positive: 60 requests per 60000 ms unless configured |
| TranslateHandler.IpLimitIgnoresGeneralKnobs | src/app/api/translate/route.ts:57 | The address limiter's window and limit never depend on the general knobs |
| TranslateHandler.UserKey | src/app/api/translate/route.ts:54 | `translate:` followed by the user id; `UserKeysSeparateUsers` and `UserAndIpKeysDiffer` state what matters of it |
| TranslateHandler.IpKey | src/app/api/translate/route.ts:57 | `translate-ip:` followed by the address |
| TranslateHandler.UserAndIpKeysDiffer | src/app/api/translate/route.ts:54-57 | A user key never equals an address key in the shared store |
| TranslateHandler.UserKeysSeparateUsers | src/app/api/translate/route.ts:54 | Two users never share a window |
| TranslateHandler.CacheKey | src/app/api/translate/route.ts:110 | Every cache key begins with `t:` |
| TranslateHandler.LastColon | src/app/api/translate/route.ts:110 | The index found holds a `:` |
| TranslateHandler.CacheKeyDeterminesParts | src/app/api/translate/route.ts:107-110 | When the codes and the hash are free of `:`, the key determines the user, both codes and the hash, so users never share entries |
| TranslateHandler.Status | src/app/api/translate/route.ts:42-227 | The HTTP status of each response; `OnlyTranslationSucceeds` states what it separates |
| TranslateHandler.OnlyTranslationSucceeds | src/app/api/translate/route.ts:42-227 | Status 200 if and only if the answer is a translation; every other answer is 400 to 502 |
| TranslateHandler.ErrorMessage | src/app/api/translate/route.ts:42-227 | Every response the handler writes itself, except a translation, carries a non-empty `error` text and a status from 400 to 502. A translation has none, and neither has the framework's reply to the uncaught throw |
| TranslateHandler.CeilSeconds | src/app/api/translate/route.ts:66 | `Math.ceil(ms / 1000)`: the least whole number of seconds not below `ms` |
| TranslateHandler.RateHeaders | src/app/api/translate/route.ts:65-70 | The user limiter's remaining count and reset second always, and the address limiter's exactly when it ran |
| TranslateHandler.ResponseHeaders | src/app/api/translate/route.ts:65-223 | The rate-limit headers are set exactly on the 429, 200 and 502 answers, and are then `RateHeaders` of the answer's verdicts |
| TranslateHandler.LimitText | src/app/api/translate/route.ts:86 | The 413 text starts with `Limite atual: ` and ends with ` caracteres.` |
| TranslateHandler.BaseUrl | src/lib/translation/index.ts:9 | `LIBRETRANSLATE_URL`, falling back to `http://localhost:5000`: the variable when it is set and non-empty, else the default; never empty |
| TranslateHandler.ProviderName | src/app/api/translate/route.ts:204 | `TRANSLATION_PROVIDER || "libretranslate"`: never empty, and the supported provider exactly when the variable is unset, empty or `libretranslate` |
| TranslateHandler.ErrorCode | src/app/api/translate/route.ts:194 | An `Error`'s message, else `TRANSLATION_ERROR` |
| TranslateHandler.MaxChars | src/lib/config.ts:1-5 | `MAX_TRANSLATION_CHARS` if it parses to a positive value, else 2000 |
| TranslateHandler.Validate | src/app/api/translate/route.ts:11-97 | The checks in order, each if and only if. A missing body or empty text gives 400 `Invalid request`. Otherwise a text over the limit gives 413. Otherwise a source that is present, not `auto` and unsupported gives the source error. Otherwise an unsupported target gives the target error. Success happens exactly when all four pass; the source then defaults to `auto` |
| TranslateHandler.LimitIsInclusive | src/app/api/translate/route.ts:84 | A text of exactly the limit is accepted, and one character more gives 413 |
| TranslateHandler.AutoOnlyAsSource | src/app/api/translate/route.ts:91-97 | `auto` is accepted as a source and refused as a target; an unknown source gives the source error |
| TranslateHandler.Admitted | src/app/api/translate/route.ts:59 | The request goes on only when the user verdict is ok and the address verdict, when there is one, is ok |
| TranslateHandler.Admit | src/app/api/translate/route.ts:54-57 | The user verdict is the user call's. With no address, the store is the user call's and there is no address verdict. With one, the address call runs on what the user call left |
| TranslateHandler.AdmitChargesBoth | src/app/api/translate/route.ts:54-59 | With an address found, both windows are charged whatever the user verdict. The user window keeps its charge. The address window is reported with its end, starts afresh when absent or expired, counts one more when live with room, and is unchanged when full. Every other key keeps its window unless it had expired |
| TranslateHandler.Handle | src/app/api/translate/route.ts:42-227 | The cache stays well formed, and the record log grows by at most one record, appended at the end |
| TranslateHandler.Proceed | src/app/api/translate/route.ts:74-104 | Past the limiters, the store is not touched again and neither 401 nor 429 can come |
| TranslateHandler.Serve | src/app/api/translate/route.ts:110-226 | A served request appends exactly one record for its user. That record is a success exactly when it has no error code, and exactly when the answer is a translation |
| TranslateHandler.UnauthorizedChangesNothing | src/app/api/translate/route.ts:49-51 | Without a user the answer is 401, and nothing changes |
| TranslateHandler.LimitersChargedFirst | src/app/api/translate/route.ts:54-72 | Both limiters are charged before either verdict is read. Either refusal answers 429 with both verdicts, and leaves the cache, the records and the engine alone |
| TranslateHandler.RefusedUserSpendsAddress | src/app/api/translate/route.ts:54-72 | A request the user limiter refuses is answered 429, and its live address window with room still counts one more call |
| TranslateHandler.ValidationDecides | src/app/api/translate/route.ts:74-104 | An admitted request that fails validation is answered with `Validate`'s error, whose order (body, length, source, target) `Validate` states. One that passes is answered 500 without a salt, then 500 for an unsupported provider |
| TranslateHandler.ReachesServe | src/app/api/translate/route.ts:104-111 | A request that passed every check is served with the salted hash against the store the limiters left |
| TranslateHandler.CacheHit | src/app/api/translate/route.ts:111-144 | On a hit the engine is not asked and the cache is not written. One success record with provider `cache` and latency 0 is added. The answer is cached, has latency 0 and names the entry's provider |
| TranslateHandler.MissThenSuccess | src/app/api/translate/route.ts:146-192 | On a miss, the request goes to the configured engine and the result is cached under the key. One success record with the engine's name and latency is added. The answer is not cached |
| TranslateHandler.MissThenFailure | src/app/api/translate/route.ts:193-226 | On a failed miss nothing is cached. One error record is added, with the thrown message as its code, no latency and no detected language. The answer is 502 with that code |
| TranslateHandler.StoppedEarlyTouchesNothing | src/app/api/translate/route.ts:49-104 | A request that stops before the lookup touches neither the cache, the records nor the engine |
| TranslateHandler.RecordsOnlyForServedRequests | src/app/api/translate/route.ts:113-209 | A record is written exactly for requests that reach the lookup, and it names the request's user |
| TranslateHandler.ServeKeepsCacheBounded | src/app/api/translate/route.ts:110-157 | Serving keeps the cache within its bound and free of the empty key |
| TranslateHandler.HandleKeepsCacheBounded | src/app/api/translate/route.ts:42-227 | Every request keeps the cache within `TRANSLATION_CACHE_MAX_ENTRIES` |
| TranslateHandler.ServeMissThenHit | src/app/api/translate/route.ts:111-157 | After an answered miss, the same lookup hits, without the engine, with the same text and detected language, until the entry expires |
| TranslateHandler.RepeatIsServedFromCache | src/app/api/translate/route.ts:110-157 | The same request repeated before expiry is answered from the cache, with the same translation |
| TranslateHandler.Server.constructor | src/app/api/translate/route.ts:8-9 | A fresh server has an empty store, cache and log |
| TranslateHandler.Server.Post | src/app/api/translate/route.ts:42-227 | The objects' new state, the response and the request sent are exactly `Handle` of the old state |
| TranslateHandler.Server.ProceedAdmitted | src/app/api/translate/route.ts:74-104 | The objects' new state and the response are `Proceed` of the old state |
| TranslateHandler.Server.ServeFields | src/app/api/translate/route.ts:110-226 | The objects' new state and the response are `Serve` of the old state |

## Left out

- Supabase (`auth.getUser`, `from("translations").insert`) is outside the process. The signed-in user is the input `Request.userId`, and an insert is an append to `World.log`. An insert that fails, and a throw from the insert inside the `try`, are not modelled.
- `sha256Hex` lives in `src/lib/crypto`, which is not part of this model. It is the function parameter `hash`. `TranslateHandler.CacheKeyDeterminesParts` requires the hash to contain no `:`, as a hexadecimal digest does.
- `fetch`, `AbortController` and `setTimeout` are outside the model. The engine's answer is the input `FetchOutcome`. No property about the timeout deadline is claimed, only that the configured timeout is passed along.
- `LibreTranslate.Classify`: the parsed body is typed as an optional string field `translatedText`. The source only casts it (`as LibreTranslateResponse`). `NotJson(message)` stands for every 2xx body whose reading throws: `res.json()` rejecting, or a JSON `null` body whose `data.translatedText` throws a `TypeError`. Either way the thrown message becomes the error code. A truthy `translatedText` that is not a string, such as a number or an object, is returned by the source as the translation; the model does not cover that case.
- `Date.now()` is a parameter at each place it is read. In the handler, `arrival` is the reading of both limiter calls, `lookup` that of the cache lookup after the body is awaited, and `finished` that of the cache write; the latency is the input `latencyMs`.
- `TranslateHandler.Admit`: both limiter calls read the clock at the one instant `arrival`. In the source they are two synchronous calls in a row, with no `await` between them, but each reads `Date.now()` itself, so the clock could tick between them; the model does not cover that.
- Environment variables and `Number.parseInt` are outside the model. Each numeric knob is an `Option<int>` (`None` for unset, empty or not a number), and each string knob is an `Option<string>`.
- The zod schema and JSON parsing are outside the model. The parsed body is `Option<Body>`. A body whose `sourceLang` is present but not a string is taken as unparsable, which is what zod answers.
- `NextResponse` objects and headers are outside the model. `RateHeaders` gives the header values as integers before `toString`, and only the error text of each response is kept.
- `TranslateHandler.Proceed`: when `TRANSLATION_PROVIDER` names an unknown engine, `getTranslationProvider` throws outside the `try`. The model answers the response `ProviderUnavailable` with status 500 and no `error` text. It stands for the framework's reply to an uncaught error, and keeps the thrown message only for reference.
- `TranslateHandler.ErrorCode` covers a thrown non-`Error`, but the modelled engine only ever throws `Error` values.
- `TranslateHandler.GetClientIp`: header names are lower-case keys of a map. The case-insensitive lookup of `Headers.get` is not modelled.
- `RateLimit.Limiter.MaybePrune` visits the keys in an arbitrary order rather than insertion order. Its result does not depend on the order.
- The latency is measured after the fetch and before the status check. Only a successful result carries it, so the model takes it as an input to `Classify`.
- `CsvExport.CsvEscape` takes `Option<string>`. `String(value)` of numbers and other non-string values is not modelled.
- String lengths are counted in characters, not UTF-16 code units.
- JavaScript numbers are IEEE doubles; the model's `int` is unbounded. The two agree while every numeric value (clock readings, windows, counts, knobs) stays below 2^53, and the model assumes it does. A knob such as `RATE_LIMIT_WINDOW_MS=99999999999999999999` parses to 1e20, and then `Date.now() + windowMs` (src/lib/rate-limit.ts:48) and `Math.ceil(resetAt / 1000)` (src/app/api/translate/route.ts:66) round, which the model does not capture.
- Concurrent requests interleaving over the shared maps are not modelled. Requests are sequential.
- The `GET` of the history export, the history route and the sign-up route only query or authenticate through Supabase, and are not modelled. Neither is the export file name, which depends on `Date`.
- The cookie forwarding of `middleware.ts` (`getAll`/`setAll`) and its `matcher` configuration are not modelled. Neither is the rest of the cloned URL: other query parameters and URL encoding. `Middleware.NoRedirectLoop` takes the next pathname to be the `redirect` parameter verbatim. The URL `pathname` setter would add a leading `/` and resolve dot segments (`redirect=login` lands on `/login`, one more hop), so its pass-through case for a relative parameter does not occur in a browser.
- `TranslationCache.SetKeepsBound` requires that no stored key is empty. With an empty oldest key the bound does not hold (`TranslationCache.EmptyOldestKeyStopsEviction`), as the source is written.
