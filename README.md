# BirthdayDeals backend: rate limiter and banner lookup

This project models the two pieces of logic in the BirthdayDeals API backend (`main.py`).

**The in-process fixed-window rate limiter.** A process-wide table `_rate_store` maps a key (client address, URL path, window length) to a record `{count, reset}`. Every request passes through the limiter twice:
- first in the HTTP middleware, at 120 requests per 60 seconds;
- then at the top of the handler the path routes to, with that handler's own limit and window.

Each call does one of four things:
- creates the record;
- replaces it wholesale once its window has expired;
- increments it;
- refuses the request and leaves the table unchanged.

**The banner lookup of `GET /api/banners`.**
- The country code is upper-cased and checked against the `COUNTRIES` table (`NL`, `AE`, `BH`). Any other code is refused with 400.
- The fetched documents are sorted in place by `position`, where a missing position counts as 0.
- Each `_id` is renamed to `id`, holding its string form.

Files:
- `wrappers.dfy`: `Option` and `Result`.
- `text.dfy`: decimal rendering of naturals. The string key uses it, and so does `str` of an integer field.
- `rate_limit.dfy`: the key, the record and the pure function `Check` for one limiter call. It also holds the class `RateLimiter`, whose `store` field is the table and whose method `CheckRateLimit` updates it the way the source does. The lemmas about one call and about sequences of calls are here too.
- `routes.dfy`: the route table, each handler's (limit, window) pair, and the two-pass gate `Pass`. `Dispatch` runs that gate on a `RateLimiter`. The lemmas cover the counter shared by the two passes.
- `banners.dfy`: the country check, a stable sort specified by key over sequences, the in-place insertion sort on an `array`, the `_id` rename loop, and `GetBanners`.

Time is an integer parameter. Each limiter pass reads the clock itself (main.py:36), so a request carries two instants: `now` for the middleware pass and `later` for the handler pass. The database read is an input sequence `fetched`.

One consequence of the key formula deserves a note. A handler whose window is also 60 seconds builds the same key as the middleware pass: `/api/countries`, `/api/banners`, `/api/verify-recaptcha` and `/test` all do. Each request admitted there therefore counts twice on that one record. So when requests do not overlap, a handler limit of `l` lets through exactly the requests numbered `i` (from 0) with `2 * i + 1 < l` in a window. For `/api/countries`, whose handler limit is 20, that means ten requests. Requests can overlap, because the source awaits between a request's two passes (main.py:54). Their passes then interleave, and the handler admits at most `l / 2` requests per window but possibly fewer. The one-second passes of `/` and `/api/health` use keys of their own.

One might expect the two passes to keep separate counters. The code shares one whenever the windows are equal, and the model follows the code.

## Model

| member | source | states |
|---|---|---|
| `RateLimit.Check` | main.py:32-47 | one limiter call as a function of the old table; its outcomes are stated by `CheckCreates`, `CheckResetsExpired`, `CheckRefusesExhausted`, `CheckIncrements`, `RefusalIsFree` and `CheckOnlyTouchesKey` |
| `RateLimit.ClientIp` | main.py:33 | the client address, or `"unknown"` without one; stated by `KeysAgree` and `AnonymousCallersShare` |
| `RateLimit.MakeKey` | main.py:33-35 | the record a call uses; when two calls share it is stated by `KeysAgree` |
| `RateLimit.KeyText` | main.py:35 | the `":"`-joined string key; stated by `KeyTextInjective` and `KeyTextCollides` |
| `RateLimit.RateLimiter.constructor` | main.py:30 | the table starts empty |
| `RateLimit.RateLimiter.CheckRateLimit` | main.py:32-47 | the verdict and the whole new table are those of `Check` on the old table; every record keeps a count of at least one |
| `RateLimit.CheckOnlyTouchesKey` | main.py:37-47 | after a call its key has a record, the key set grows by at most that key, and every other key's record is unchanged |
| `RateLimit.CheckCreates` | main.py:37-40 | with no record for the key, the call is admitted and stores `count = 1`, `reset = now + window`, and nothing else changes |
| `RateLimit.CheckResetsExpired` | main.py:41-43 | when `now > reset`, the record is replaced wholesale by `count = 1`, `reset = now + window`, and the call is admitted |
| `RateLimit.ResetInstantIsCurrent` | main.py:41-47 | at `now == reset` the old window still holds: `reset` is kept, and the call is admitted exactly when `count < limit` |
| `RateLimit.CheckRefusesExhausted` | main.py:44-45 | a current record with `count >= limit` refuses the call and the table is left exactly as it was |
| `RateLimit.CheckIncrements` | main.py:46-47 | a current record with `count < limit` gains exactly one, keeps its `reset`, no other key changes, and the call is admitted |
| `RateLimit.RefusalIsFree` | main.py:41-47 | a call is refused if and only if a current record has `count >= limit`, and a refusal never changes the table |
| `RateLimit.KeysAgree` | main.py:33-35 | two calls hit the same record if and only if their address (with the `"unknown"` fallback), path and window all agree |
| `RateLimit.AnonymousCallersShare` | main.py:33-35 | two calls without a client address on one path and window count on the same `"unknown"` record: the second finds count 1 and raises it to 2 |
| `RateLimit.KeyTextInjective` | main.py:35 | the `":"`-joined key string is equal for two keys if and only if the keys are equal, provided the address has no `/` and the path starts with `/` |
| `RateLimit.KeyTextCollides` | main.py:35 | without the address condition two different keys give the same joined string |
| `Text.NatTextInjective` | main.py:35 | different windows print as different decimal strings inside the key |
| `RateLimit.CheckKeepsPositive` | main.py:37-47 | if every record has `count >= 1`, that still holds after any call |
| `RateLimit.CheckKeepsBound` | main.py:38-47 | with `limit = L >= 1`, a record holding `1 <= count <= L` keeps that bound after a call with the same limit |
| `RateLimit.OneWindowAdmitsFirst` | main.py:37-47 | for a key with no record or an expired one and a fixed `limit = N >= 1`, with every call inside the window the first call opens: calls 0 to N-1 are admitted and every later call is refused; the record ends at `min(#calls, N)` with the first call's `reset`; no other key changes |
| `RateLimit.ReplayKeepsBound` | main.py:38-47 | while every call on a key uses the same `limit = L >= 1`, that key's record keeps `1 <= count <= L` over any sequence of calls, whatever other keys do |
| `RateLimit.LimitTwoScenario` | main.py:37-47 | with limit 2 and a one-second window: three immediate calls give admitted, admitted, refused; a call at the reset instant is still refused; the next call after it is admitted with the count back at 1 |
| `Routes.HandlerPolicy` | main.py:61-113 | the (limit, window) pair of each handler: 5/1, 10/1, 20/60, 60/60, 30/60 and 10/60 at main.py:61, 67, 73, 79, 93 and 113; which pairs share the middleware's record is stated by `SharedRoutes` |
| `Routes.RouteOf` | main.py:59-113 | a path routes to a handler exactly when it is that handler's path, and to none when no handler has it |
| `Routes.Pass` | main.py:49-54 | with the middleware's clock read and the handler's as two instants: when the middleware pass (120 per 60 s) refuses, the request is refused and the table is unchanged; the handler body is reached only on the routed handler |
| `Routes.SharedRoutes` | main.py:52-113 | a handler pass builds the same key as the middleware pass if and only if the route is not `/` and not `/api/health` |
| `Routes.SharedPassStep` | main.py:52-113 | one request at a route sharing the middleware's record, with the middleware reading the clock at `now` and the handler at `later`: a record at 120 that is current at `now` is refused and left alone; if the window the handler sees has run out by `later`, the handler restarts the record at 1 and admits; otherwise a record the middleware found fresh or expired ends at 2 and reaches the handler, and a current one gains 2 when the handler admits and 1 when it refuses |
| `Routes.ReachedCountsTwice` | main.py:52-113 | a request that reaches a shared route's handler adds two to the record, or leaves it at 2 when it started a new window, or at 1 when the window ran out between the two clock reads |
| `Routes.ExpiryBetweenReads` | main.py:36-52 | a record at 119 whose window ends at 100: with the middleware reading 100 and the handler 101, the request reaches `/api/countries` and the record restarts as count 1 ending at 161 |
| `Routes.SeparateWindows` | main.py:52-67 | at `/` and `/api/health` each pass moves its own record exactly as if the other pass had not run, and the handler is reached if and only if both passes admit on the old table, each at its own clock read |
| `Routes.SharedRouteServesHalf` | main.py:52-113 | at a shared route with handler limit `l`, a client with no record, requests that do not overlap, both clock reads of every request in one window: request `i` reaches the handler if and only if `2 * i + 1 < l`; every other request is refused; only that client's record changes |
| `Routes.CountriesServesTen` | main.py:71-75 | for requests that do not overlap, `/api/countries` serves exactly the first ten requests per client and window, despite its handler limit of 20 |
| `Routes.InterleavedCounts` | main.py:32-54 | for the passes of one client's overlapping requests at a shared route, with no record before and every pass in one window, interleaved in any order in which no prefix holds more handler passes than admitted middleware passes: the record counts every admitted pass once, and the handler's admissions stay at or below half its limit |
| `Routes.InterleavedServesAtMostHalf` | main.py:52-113 | however the passes of overlapping requests interleave, at most `l / 2` of one client's requests reach a shared route's handler in one window |
| `Routes.Dispatch` | main.py:49-113 | running the middleware pass at `now` and then the routed handler's pass at `later` on the limiter gives the verdict and table of `Pass` |
| `Banners.ValidateCountry` | main.py:81-83 | the country check; stated by `AcceptedSpellings` |
| `Banners.Upper` | main.py:81 | upper-casing keeps the length |
| `Banners.UpperCharInverse` | main.py:81 | a character upper-cases to a capital letter exactly when it is that letter or its lower-case form |
| `Banners.UpperIdempotent` | main.py:81 | upper-casing twice is upper-casing once |
| `Banners.AcceptedSpellings` | main.py:81-83 | a country is accepted if and only if it is one of the twelve case variants of NL, AE and BH; the accepted code is its upper-case form, one of the `COUNTRIES` keys; anything else is refused with 400 |
| `Banners.Position` | main.py:85 | the sort key, `position` or 0 when it is missing; used by `SortByPosition` and `BannersResult` |
| `Banners.SortSpec` | main.py:85 | the stable sort by a key, keeping the length; stated by `SortSpecIsStableSort` |
| `Banners.SortSpecIsStableSort` | main.py:85 | the sort specification orders by key, is a permutation of its input, and keeps the elements of each key in their input order |
| `Banners.InsertAt` | main.py:85 | one insertion step: `a[i]` moves into the sorted prefix exactly where the sort specification puts it, and the rest of the array is untouched |
| `Banners.SortByPosition` | main.py:85 | the array after sorting in place is the sort specification of its old contents, keyed by `position` (default 0) |
| `Banners.Rename` | main.py:87-88 | the rename of one document; stated by `RenameMovesId` |
| `Banners.RenameAll` | main.py:86-88 | the rename of every document, keeping the length; stated by `RenameMovesId` and `RenameKeepsOrder` |
| `Banners.RenameMovesId` | main.py:86-88 | a document with `_id` loses it and gains `id = str(_id)`, every other field unchanged; a document without `_id` is unchanged |
| `Banners.RenameKeepsOrder` | main.py:85-88 | renaming does not change any position, so a sorted list stays sorted |
| `Banners.RenameIds` | main.py:86-88 | the loop rewrites every document of the array in place by the rename and touches nothing else |
| `Banners.GetBanners` | main.py:81-89 | refused with 400 if and only if the upper-cased country is not a `COUNTRIES` key; otherwise returns the fetched documents stably sorted by position, each with `_id` renamed |
| `Banners.BannersResult` | main.py:85-89 | the successful result is ordered by position, has the fetched length and holds no `_id`; before renaming it is a permutation of the fetched documents that keeps the documents of each position in their fetched order |

## Left out

- FastAPI plumbing is not modelled: the app, CORS, async middleware chaining and the 429 `JSONResponse` body (main.py:18-26, 49-54). `Pass` returns `Limited` where the source answers 429.
- The clock is not modelled. `time.time()` returns a float (main.py:36); the model takes `now` as an integer parameter, so sub-second instants are outside it.
- Routes.Pass, Routes.PassAll, Routes.SharedRouteServesHalf, Routes.CountriesServesTen: these model requests that do not overlap.
  - One limiter call is atomic. `check_rate_limit` contains no `await`, and its callers all run on the one asyncio event loop (main.py:50, 60-112). So `Check` and `RateLimiter` are exact for one process.
  - One request is not atomic. `await call_next(request)` (main.py:54) lets other requests run between its middleware pass and its handler pass.
  - An interleaving of passes is covered, as a sequence of single calls, only by `InterleavedCounts` and `InterleavedServesAtMostHalf`, and those give only the upper bound.
  - Separate worker processes each keep a table of their own, and the model covers one of them.
- FastAPI's own documentation routes (`/docs`, `/redoc`, `/openapi.json`, created by main.py:18) pass the middleware and have no limiter pass of their own. `Pass` reports them, like any unrouted path, as `NoLimitedHandler`, and does not model their responses.
- The record dict is mutated in place (`entry["count"] += 1`). The model stores records as values and replaces them. No record is ever shared between keys or visible outside the table, so the two are equivalent.
- The key is modelled as a tuple. The source joins the parts with `":"`; `KeyTextInjective` shows the two agree for real addresses and paths.
- No eviction: stale records are never removed, in the source or in the model.
- Routing is by path only. Some rejections happen before a handler runs: the HTTP method (405), trailing-slash redirects, FastAPI's parameter validation (422), and CORS preflight `OPTIONS` requests. `CORSMiddleware` (main.py:20-26) sits inside the limiter middleware and answers preflights itself; browser POSTs to `/api/verify-recaptcha` send them. Each such request counts once on the 60-second record and never reaches the handler's limiter pass. `Pass` does not model that case.
- Handler bodies other than the banner lookup are not modelled: `/` and `/api/health` return static data (main.py:63, 69), `/api/countries` returns the static `COUNTRIES` values (main.py:75), reCAPTCHA verification makes a network call and reads an environment variable (main.py:95-109), and `/test` runs database diagnostics (main.py:115-144).
- The uvicorn startup (main.py:146-149) is not modelled.
- The database read `get_documents` (main.py:84) is a foreign call; its result is the input `fetched`.
- An `ObjectId` is modelled by its hex string, which is what `str` returns for it.
- Upper-casing covers ASCII letters only. Python's `str.upper` also maps some non-ASCII characters (main.py:81).
- The model sorts by insertion; Python's `list.sort` is Timsort. Both are stable sorts by the same key. Their results agree because a stable sort's output is unique, but that uniqueness is not proved here.
- Field order inside a document is not modelled. Fields are a `map`, and Python appends `id` at the end of the dict.
- Banners.GetBanners: requires every present `position` to be an integer. Python's sort also accepts float and bool positions, and raises or compares across types for `None` and strings. None of these is modelled. `Position` gives 0 for any non-integer value, which matches Python only for an absent field.
- Non-positive `limit` or `window` values are outside the limiter's intended contract. The model accepts any integers and behaves as the code does.
- schemas.py is not modelled: it holds only declarative Pydantic models, whose validation is done by the library.
