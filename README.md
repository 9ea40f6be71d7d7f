# strava-ui: the cache-aside engine and the activities page, in Dafny

This project models the server-side core of strava-ui, a Next.js front end for
the Strava API.

- `strava-ui/src/cache.ts` holds the cache-aside engine, with `fetch`, `get`
  and `set` over Redis.
- `strava-ui/src/pages/activities.tsx` holds two pieces of orchestration that
  drive the engine:
  - `getServerSideProps` fetches the recent-activity list and then the
    details of each activity. Both go through the cache, under keys bucketed
    by month and day.
  - The loop inside `fillActivityCalendar` turns the list into calendar
    entries.

Files:

- `json.dfy` (module `Json`) covers JSON values and JSON.stringify /
  JSON.parse. The stored text is a sequence of JSON tokens, and the parser is
  a strict recursive-descent parser. It proves that parsing undoes
  stringifying, and so that stringify is injective.
- `runtime.dfy` (module `Runtime`) covers the JavaScript behaviour the page
  relies on:
  - rejected promises and thrown errors (`Result`, `Error`);
  - `undefined`;
  - property reads, which throw on null and undefined, and where the last
    duplicate member of an object wins;
  - truthiness;
  - the number of iterations a test `i < bound` allows;
  - the way a template literal prints a value.
- `cache.dfy` (module `Cache`) describes the engine twice:
  - as spec functions over the Redis store: `Lookup`, `SetStep`, `FetchStep`;
  - as the class `Engine`, whose fields are the store, the log of events
    (Redis reads, producer calls, Redis writes) and a ghost history of
    `fetch` calls. Its methods `Get`, `Set` and `Fetch` are proved against
    those functions.

  The lemmas state what one fetch does in each case (bypass, hit, miss,
  producer failure, unparseable stored text) and what two fetches in a row
  do.
- `activities.dfy` (module `Activities`) holds the rest:
  - the two keys;
  - the two producers and their fallbacks;
  - `ServerSideProps`, the whole request as a function of the cache's state;
  - the method `GetServerSideProps`, which keeps the source's loop and is
    proved equal to that function;
  - lemmas about the list fetch and its single retry, the detail fetches
    and their order, the details dictionary, and the keys;
  - `FillActivityCalendar`, the calendar loop, specified entry by entry.

Where the intended design and the code differ, the model follows the code:

- A thrown Strava request yields `[]` (list) or `{}` (details), and that
  value is cached. The request does not fail.
- After the bypass retry, the list's shape is not checked again. A second
  non-array is handed to the loop, not reported: see `NonArrayAfterRetry` and
  `NullListThrows`.
- `get` parses before `fetch` looks at `bypass`. So a stored text that
  JSON.parse rejects makes even a bypass fetch throw.

## Model

| member | source | states |
|---|---|---|
| Json.Stringify | strava-ui/src/cache.ts:29 | definition of JSON.stringify, as the tokens of the value: scalars as one token, arrays and objects bracketed with their elements or members comma-separated in order |
| Json.Parse | strava-ui/src/cache.ts:24 | definition of JSON.parse: exactly one value and nothing after it, or a syntax error |
| Json.ParseStringify | strava-ui/src/cache.ts:24-29 | JSON.parse of the text JSON.stringify writes gives back the same value, for every value |
| Json.ParseStringifyValue | strava-ui/src/cache.ts:24-29 | the parser reads back exactly the tokens of one stringified value and leaves whatever follows untouched |
| Json.StringifyInjective | strava-ui/src/cache.ts:29 | distinct values are written as distinct texts |
| Runtime.Member | strava-ui/src/pages/activities.tsx:60-63 | a property read throws exactly when the base is null or undefined; for an array, `length` is the number of elements and `[i]` is element i |
| Runtime.FieldValueLastWins | strava-ui/src/pages/activities.tsx:63 | reading a member of a parsed object finds a value exactly when the object has a member of that name, and the value is the last such member's |
| Runtime.LoopCount | strava-ui/src/pages/activities.tsx:60 | a `for` loop with the test `i < bound` runs `bound` times for a non-negative number, and not at all for `undefined` |
| Runtime.NatToString | strava-ui/src/pages/activities.tsx:50 | definition of `toString()` for the month and the day: the decimal digits, most significant first |
| Runtime.IntToString | strava-ui/src/pages/activities.tsx:61 | definition of how a template literal prints an integer id: a minus sign for a negative one, then its decimal digits |
| Runtime.NatToStringInjective | strava-ui/src/pages/activities.tsx:50 | distinct month or day numbers print differently |
| Runtime.IntToStringInjective | strava-ui/src/pages/activities.tsx:61 | distinct integer ids print differently |
| Cache.Lookup | strava-ui/src/cache.ts:19-25 | definition of `get`: null when the key is missing, a syntax error when the stored text does not parse, and the parsed value otherwise |
| Cache.SetStep | strava-ui/src/cache.ts:27-31 | definition of `set`: a producer call; on its rejection that error and the store unchanged; otherwise the value, with its text written under the key with the expiry |
| Cache.FetchStep | strava-ui/src/cache.ts:5-17 | definition of `fetch`: the read first; its syntax error ends the call; otherwise with bypass a `set`, without bypass the stored value when it is not null and a `set` when it is |
| Cache.Engine.Get | strava-ui/src/cache.ts:19-25 | one Redis read of the key, then null when nothing is stored, a syntax error when the text does not parse, and the parsed value otherwise |
| Cache.Engine.Set | strava-ui/src/cache.ts:27-31 | the producer is called first; on a rejection nothing is written; otherwise its JSON text is written under the key with the expiry, and the value is returned |
| Cache.Engine.Fetch | strava-ui/src/cache.ts:5-17 | the result, the new store and the appended events are those of the fetch specification, and the call is recorded in the fetch history |
| Cache.FetchReadsFirst | strava-ui/src/cache.ts:5-17 | every fetch starts with the Redis read of its own key, then makes at most one producer call and at most one write, of that key with the given expiry |
| Cache.FetchBypass | strava-ui/src/cache.ts:6-10 | with bypass and a readable entry: exactly one producer call; its value is written and returned, whatever was stored |
| Cache.FetchHit | strava-ui/src/cache.ts:11-14 | without bypass, a stored value other than null is returned with no producer call and no write |
| Cache.FetchMiss | strava-ui/src/cache.ts:11-16 | without bypass, and with nothing stored or a stored null: exactly one producer call; its value is written under the key and returned |
| Cache.FetchProducerFails | strava-ui/src/cache.ts:5-31 | a rejecting producer is called exactly when the stored text parses and bypass is set or it reads as null, and fetch then rejects with its error; otherwise fetch returns what `get` gave; the store is unchanged either way |
| Cache.FetchUnparseable | strava-ui/src/cache.ts:5-7 | a stored text JSON.parse rejects makes fetch throw a syntax error, bypass or not, with no producer call and no write |
| Cache.FetchResultIsStored | strava-ui/src/cache.ts:5-17 | whatever fetch returns successfully is what a later get of that key returns |
| Cache.SetWritesOnlyKey | strava-ui/src/cache.ts:27-31 | set returns the producer's outcome, leaves every other key as it was, and writes the value's text with exactly the given expiry |
| Cache.SetFailureWritesNothing | strava-ui/src/cache.ts:28-29 | a rejected producer makes set reject with the same error, with the store unchanged and one producer call |
| Cache.GetAfterSet | strava-ui/src/cache.ts:19-31 | after set returns v, get of the same key returns v |
| Cache.GetNullIff | strava-ui/src/cache.ts:19-25 | get returns null exactly when nothing is stored or the stored text is null; in a store without nulls, exactly when nothing is stored |
| Cache.SetKeepsNoStoredNull | strava-ui/src/cache.ts:27-31 | writing a value other than null keeps a store free of nulls |
| Cache.FetchKeepsNoStoredNull | strava-ui/src/cache.ts:5-17 | a fetch whose producer cannot yield null keeps a store free of nulls, so `get` there reads null exactly when nothing is stored |
| Cache.FetchTwice | strava-ui/src/cache.ts:5-17 | two fetches of one key without bypass, with a first value other than null: the second calls no producer and changes nothing, both return the same, and there is at most one producer call in all |
| Cache.NullIsProducedAgain | strava-ui/src/cache.ts:11-16 | a produced null is stored, but the next fetch calls the producer again |
| Cache.RejectionIsProducedAgain | strava-ui/src/cache.ts:27-31 | a rejecting producer writes nothing, so the next fetch of the missing key calls it again, and both fetches reject |
| Activities.ListKey | strava-ui/src/pages/activities.tsx:50 | definition of the list key: `allActivities-`, the month, a dash, the day |
| Activities.DetailKey | strava-ui/src/pages/activities.tsx:61 | definition of the detail key: `activity-`, the id as a template literal prints it, `-details-`, the month, a dash, the day |
| Activities.ListFetcher | strava-ui/src/pages/activities.tsx:18-32 | definition of `fetcher`: the body Strava answered, or `[]` when the request threw |
| Activities.DetailFetcher | strava-ui/src/pages/activities.tsx:34-47 | definition of `activityDetailsFetcher(id)`: the body Strava answered, or `{}` when the request threw |
| Activities.FetchList | strava-ui/src/pages/activities.tsx:50-56 | definition of the list phase: a fetch without bypass, and a second one with bypass, same key and producer, when the first result is not an array |
| Activities.ServerSideProps | strava-ui/src/pages/activities.tsx:50-66 | definition of the whole request: the list phase, then, unless it threw, the detail phase on its list |
| Activities.DetailPhase | strava-ui/src/pages/activities.tsx:59-66 | definition of the detail phase: read the list's `length` (which throws on null), then run the loop that many times from an empty dictionary |
| Activities.DetailLoop | strava-ui/src/pages/activities.tsx:60-64 | definition of the loop from iteration i: read element i's id, fetch its details without bypass, file them under their own id, go on; stop at the first throw |
| Activities.CalendarEntry | strava-ui/src/pages/activities.tsx:87-91 | definition of one calendar entry: the first ten characters of `start_date`, which must be a string, and `distance` as read |
| Activities.CalendarLength | strava-ui/src/pages/activities.tsx:86 | definition of the calendar loop's bound: the iterations `i < (activities or []).length` allows |
| Runtime.Truthy | strava-ui/src/pages/activities.tsx:86 | definition of truthiness as `activities or []` tests it: false for undefined, null, false, 0 and the empty string |
| Runtime.JsText | strava-ui/src/pages/activities.tsx:61-63 | definition of how a template literal and a property key print a value: `undefined`, `null`, the decimal form of a number, a string as is, arrays joined by commas, `[object Object]` |
| Runtime.ToText | strava-ui/src/pages/activities.tsx:61-63 | definition of String(v) for a JSON value, which JsText uses for defined values |
| Activities.ElementId | strava-ui/src/pages/activities.tsx:61-62 | definition of `cachedActivities[i].id`: element i of the list, then its `id`, throwing when the element is null or undefined |
| Activities.DetailId | strava-ui/src/pages/activities.tsx:63 | definition of `cachedActivityDetails.id`, which throws exactly when the detail is null |
| Activities.IdKey | strava-ui/src/pages/activities.tsx:63 | definition of the dictionary key `activityDetails[cachedActivityDetails.id]` names: the detail's id as a property key prints it |
| Activities.Record | strava-ui/src/pages/activities.tsx:59-64 | definition of the dictionary the loop builds: each fetched detail filed under its own id, in fetch order, later ones overwriting earlier ones |
| Activities.CalendarEntryAt | strava-ui/src/pages/activities.tsx:87-90 | definition of the entry for `activities[i]`: the element, then its calendar entry |
| Activities.GetServerSideProps | strava-ui/src/pages/activities.tsx:15-67 | the page's result, and the cache's store, event log and fetch history afterwards, are those of the request specification |
| Activities.FetchListRequests | strava-ui/src/pages/activities.tsx:50-56 | the list phase appends the list fetch without bypass, and the bypass retry of the same key and producer exactly when the first result is not an array |
| Activities.ListPhase | strava-ui/src/pages/activities.tsx:50-56 | the whole request starts with the list fetch of the list key without bypass; a non-array first result is followed by a second list fetch with bypass |
| Activities.NoFurtherListFetch | strava-ui/src/pages/activities.tsx:51-64 | after the one or two list fetches, no fetch uses the list key or bypass: the list is retried at most once, and only when it is not an array |
| Activities.ListPhaseOnSuccess | strava-ui/src/pages/activities.tsx:51-56 | on success, the page's list is the result of the last list fetch; there is one list fetch when the first result is that array, and two otherwise |
| Activities.DetailPhaseOnSuccess | strava-ui/src/pages/activities.tsx:59-66 | on success, after the list fetches come exactly as many detail fetches as `i < list.length` allows, each returning a detail other than null; the dictionary files each detail under its own id, later ones overwriting earlier ones |
| Activities.DetailFetchesInOrder | strava-ui/src/pages/activities.tsx:60-62 | on success, detail fetch k is for element k of the list: its key, the one-hour expiry, no bypass, and the detail producer for that element's id |
| Activities.DetailLoopRequests | strava-ui/src/pages/activities.tsx:60-64 | the loop only appends to the fetch history, at most one fetch per iteration, each the detail fetch of its iteration's element |
| Activities.DetailLoopOnSuccess | strava-ui/src/pages/activities.tsx:60-64 | a loop that completes makes exactly one fetch per iteration, all returning a detail other than null, and builds the dictionary of those details by id |
| Activities.DetailPhaseRequests | strava-ui/src/pages/activities.tsx:59-64 | the detail phase appends only detail fetches of successive elements |
| Activities.DetailPhaseDetails | strava-ui/src/pages/activities.tsx:59-66 | a detail phase that succeeds read a length, made one fetch per iteration it allows, and returns the list with the dictionary of the fetched details |
| Activities.RecordKeys | strava-ui/src/pages/activities.tsx:63 | the dictionary holds a key exactly when it held it before or some fetched detail has that id |
| Activities.RecordLastWins | strava-ui/src/pages/activities.tsx:63 | a detail is what the dictionary holds under its id unless a later detail has the same id |
| Activities.RecordUntouched | strava-ui/src/pages/activities.tsx:63 | a key that no fetched detail names keeps its value |
| Activities.ArrayIterations | strava-ui/src/pages/activities.tsx:60-61 | for an array list, the loop runs once per element, and iteration j reads element j's id |
| Activities.NonArrayAfterRetry | strava-ui/src/pages/activities.tsx:53-60 | when nothing is cached and Strava answers with an object that has no `length` member (its error answer, say), the page gets that object as its list and no details, after exactly two list fetches, the second with bypass: the shape is not checked again |
| Activities.NullListThrows | strava-ui/src/pages/activities.tsx:54-60 | a null list survives the retry: after two list fetches, the second with bypass, the request throws the TypeError of reading `length` of null |
| Activities.ListRecovered | strava-ui/src/pages/activities.tsx:53-56 | a cached list that is neither an array nor null is replaced: when Strava now answers with an array, the list phase returns that array after exactly two list fetches, the second with bypass, the list key then holds it, and a request that succeeds hands that array to the page |
| Activities.ListFallbackIsCached | strava-ui/src/pages/activities.tsx:18-32 | a thrown list request yields `[]`; it is cached under the list key for an hour, and the page gets an empty list and no details |
| Activities.DetailFallbackIsCached | strava-ui/src/pages/activities.tsx:34-47 | a thrown detail request yields `{}`; it is cached under the detail key for an hour, and filed under "undefined" |
| Activities.ListKeyInjective | strava-ui/src/pages/activities.tsx:50 | distinct (month, day) buckets have distinct list keys |
| Activities.DetailKeyInjective | strava-ui/src/pages/activities.tsx:61 | within one bucket, two detail keys are equal only when the ids print the same |
| Activities.NumericIdsHaveDistinctDetailKeys | strava-ui/src/pages/activities.tsx:61 | distinct numeric ids have distinct detail keys within one bucket |
| Activities.DetailKeyIsNotListKey | strava-ui/src/pages/activities.tsx:50-61 | no detail key equals any list key, so detail fetches never touch the list's entry |
| Activities.Substring10 | strava-ui/src/pages/activities.tsx:87 | `substring(0, 10)` is the prefix of length ten, or the whole string when it is shorter |
| Activities.FillActivityCalendar | strava-ui/src/pages/activities.tsx:85-94 | the loop succeeds exactly when every entry below the list's length (no entries for a falsy list) succeeds, and then gives those entries in order; otherwise it throws the error of the first failing entry |
| Activities.CalendarOfArray | strava-ui/src/pages/activities.tsx:86-87 | for an array of activities, one entry per element, and an entry with a string start date holds its first ten characters |

## Left out

- Redis itself is a map inside the model. The connection (`REDIS_URL`), its failures and the rejection of a non-positive expiry are not modelled.
- Entries do not expire. The expiry is recorded with each entry, but never enforced, so consecutive fetches are assumed to happen within it.
- JSON text is a sequence of tokens. Lexing, escaping and whitespace are not modelled, nor that several texts (`1`, `1.0`, `1e0`) denote one number.
- A `JObj` keeps duplicate member names and their order, where a JavaScript object keeps one member per name; reads agree, because the last duplicate wins (Runtime.FieldValueLastWins).
- Numbers are unbounded integers. JSON.parse rounds integers beyond 2^53 to doubles and Number.prototype.toString prints `1e+21` and above in exponent form; neither is modelled. `distance / 10000` in the calendar is floating point, so the entry keeps `distance` as read.
- Nothing is logged: the `console.log` and `console.error` calls are left out.
- The two Strava endpoints are parameters: `listApi`, and `detailApi` for each id. The token, the URL and the HTTP exchange are not modelled.
- The clock is the pair of parameters `month` and `day`. The model does not capture two `new Date()` calls that straddle midnight and so see different dates.
- A producer is a settled outcome (a value or a rejection), not a function, so it always settles the same way.
- Concurrent page requests sharing the cache are left out. Within one request the awaits run one after another, and that order is modelled.
- The React component, its state and its rendering are left out. The calendar loop is modelled without `setActivities` and `setCalendarData`.
- Runtime.LoopCount: a string or array bound, which JavaScript converts to a number in `i < bound`, counts as zero iterations. This is a weaker model of conversions that the code never meets with Strava's answers.
- Runtime.Member: a string's `length` and its `[i]` count characters, not UTF-16 code units.
- Activities.Substring10: `substring(0, 10)` counts characters, not UTF-16 code units.
- Activities.GetServerSideProps: the details object is a map, so the insertion order of its keys is not modelled.
- Cache.FetchTwice: holds only when the first producer yields a value other than null. `get` reads a stored null as a miss, so a null is produced again (Cache.NullIsProducedAgain); and a rejection writes nothing, so a rejecting producer is called again by the next fetch (Cache.RejectionIsProducedAgain).
