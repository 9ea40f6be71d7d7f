/**
  The server side of the activities page, strava-ui/src/pages/activities.tsx:
  `getServerSideProps` and the loop inside `fillActivityCalendar`.

  getServerSideProps fetches the recent-activity list through the cache under a
  key bucketed by month and day; when what comes back is not an array it
  fetches once more with bypass, and does not look at the shape again. It then
  walks the list, fetches each activity's details through the cache under a
  per-activity key of the same bucket, and files each detail in a dictionary
  under the detail's own `id`.

  The clock (`new Date().getMonth()` and `getDate()`) is the pair of
  parameters `month` and `day`; the two Strava endpoints are what they answer
  (`listApi`, and `detailApi` for each id), a thrown request being
  `NetworkError`.
*/
module Activities {
  import opened Json
  import opened Runtime
  import opened Cache

  /** The expiry, in seconds, of every entry the page writes: 60 * 60. */
  const Expiry: int := 60 * 60

  // ---------------------------------------------------------------------------
  // Keys

  /** The date bucket `<month>-<day>` both keys end with. */
  function Bucket(month: nat, day: nat): string {
    NatToString(month) + "-" + NatToString(day)
  }

  /** `allActivities-<month>-<day>`. */
  function ListKey(month: nat, day: nat): string {
    "allActivities-" + Bucket(month, day)
  }

  /** `activity-<id>-details-<month>-<day>`, the id as a template literal writes it. */
  function DetailKey(id: JsValue, month: nat, day: nat): string {
    "activity-" + JsText(id) + "-details-" + Bucket(month, day)
  }

  // ---------------------------------------------------------------------------
  // Producers

  /** What a Strava endpoint gave: the body `res.json()` resolved to, or a thrown request. */
  datatype HttpResult = Response(body: JsonValue) | NetworkError

  /** `fetcher`: the recent-activities request; a thrown request yields []. */
  function ListFetcher(response: HttpResult): Producer {
    Ok(if response.Response? then response.body else JArr([]))
  }

  /** `activityDetailsFetcher(id)`: the details request; a thrown request yields {}. */
  function DetailFetcher(response: HttpResult): Producer {
    Ok(if response.Response? then response.body else JObj([]))
  }

  // ---------------------------------------------------------------------------
  // The request as a function of the cache's state

  /** The cache's state: its store, its event log and its fetch calls. */
  datatype Trace = Trace(store: Store, log: seq<Event>, requests: seq<Request>)

  /** One `cache.fetch` on state `t`: the state after it, and its result. */
  function Call(t: Trace, key: string, producer: Producer, expires: int, bypass: bool): (Trace, Result<JsonValue>) {
    var s := FetchStep(t.store, key, producer, expires, bypass);
    (Trace(s.store, t.log + s.events, t.requests + [Request(key, expires, bypass, producer, s.result)]), s.result)
  }

  /** The page's props: the list as fetched, and the details keyed by their own ids. */
  datatype Props = Props(activities: JsonValue, details: map<string, JsonValue>)

  datatype Run = Run(result: Result<Props>, trace: Trace)

  /** `cachedActivities[i].id`. */
  function ElementId(list: JsonValue, i: nat): Result<JsValue> {
    var element :- Member(Defined(list), Index(i));
    Member(element, Name("id"))
  }

  /** `cachedActivityDetails.id`; it throws exactly when the detail is null. */
  function DetailId(detail: JsonValue): Result<JsValue> {
    Member(Defined(detail), Name("id"))
  }

  /** The key `activityDetails[detail.id] = detail` assigns. */
  function IdKey(detail: JsonValue): string
    requires detail != JNull
  {
    JsText(DetailId(detail).value)
  }

  /** The list fetch, and the one retry with bypass when its result is not an array. */
  function FetchList(t: Trace, month: nat, day: nat, listApi: HttpResult): (Trace, Result<JsonValue>) {
    var key := ListKey(month, day);
    var first := Call(t, key, ListFetcher(listApi), Expiry, false);
    if first.1.Ok? && !first.1.value.JArr? then Call(first.0, key, ListFetcher(listApi), Expiry, true)
    else first
  }

  function ServerSideProps(t: Trace, month: nat, day: nat, listApi: HttpResult, detailApi: JsValue -> HttpResult): Run {
    var fetched := FetchList(t, month, day, listApi);
    match fetched.1
    case Err(e) => Run(Err(e), fetched.0)
    case Ok(list) => DetailPhase(fetched.0, list, month, day, detailApi)
  }

  /** The detail loop, from reading `cachedActivities.length` on. */
  function DetailPhase(t: Trace, list: JsonValue, month: nat, day: nat, detailApi: JsValue -> HttpResult): Run {
    match Member(Defined(list), Name("length"))
    case Err(e) => Run(Err(e), t)
    case Ok(length) => DetailLoop(t, list, 0, LoopCount(length), map[], month, day, detailApi)
  }

  /** Iterations i to n - 1 of the detail loop, with the dictionary built so far. */
  function DetailLoop(t: Trace, list: JsonValue, i: nat, n: nat, details: map<string, JsonValue>,
                      month: nat, day: nat, detailApi: JsValue -> HttpResult): Run
    decreases n - i
  {
    if i >= n then Run(Ok(Props(list, details)), t)
    else
      var elementId := ElementId(list, i);
      if elementId.Err? then Run(Err(elementId.error), t)
      else
        var id := elementId.value;
        var call := Call(t, DetailKey(id, month, day), DetailFetcher(detailApi(id)), Expiry, false);
        if call.1.Err? then Run(Err(call.1.error), call.0)
        else
          var detailId := DetailId(call.1.value);
          if detailId.Err? then Run(Err(detailId.error), call.0)
          else DetailLoop(call.0, list, i + 1, n, details[JsText(detailId.value) := call.1.value], month, day, detailApi)
  }

  method GetServerSideProps(cache: Engine, month: nat, day: nat, listApi: HttpResult, detailApi: JsValue -> HttpResult)
    returns (r: Result<Props>)
    modifies cache
    ensures var run := ServerSideProps(Trace(old(cache.store), old(cache.log), old(cache.requests)),
                                       month, day, listApi, detailApi);
      && r == run.result
      && cache.store == run.trace.store && cache.log == run.trace.log && cache.requests == run.trace.requests
  {
    ghost var run := ServerSideProps(Trace(cache.store, cache.log, cache.requests), month, day, listApi, detailApi);
    var key := ListKey(month, day);
    var fetcher := ListFetcher(listApi);
    var cachedActivities :- cache.Fetch(key, fetcher, Expiry, false);
    if !cachedActivities.JArr? {
      cachedActivities :- cache.Fetch(key, fetcher, Expiry, true);
    }
    var length :- Member(Defined(cachedActivities), Name("length"));
    var n := LoopCount(length);
    var activityDetails := map[];
    var i := 0;
    while i < n
      invariant i <= n
      invariant DetailLoop(Trace(cache.store, cache.log, cache.requests), cachedActivities, i, n, activityDetails,
                           month, day, detailApi) == run
    {
      var id :- ElementId(cachedActivities, i);
      var activityDetailsKey := DetailKey(id, month, day);
      var cachedActivityDetails :- cache.Fetch(activityDetailsKey, DetailFetcher(detailApi(id)), Expiry, false);
      var detailId :- DetailId(cachedActivityDetails);
      activityDetails := activityDetails[JsText(detailId) := cachedActivityDetails];
      i := i + 1;
    }
    r := Ok(Props(cachedActivities, activityDetails));
  }

  // ---------------------------------------------------------------------------
  // The details dictionary

  /** Every request succeeded with a value other than null. */
  ghost predicate AllDetailsOk(reqs: seq<Request>) {
    forall j :: 0 <= j < |reqs| ==> reqs[j].result.Ok? && reqs[j].result.value != JNull
  }

  /** `details` after `activityDetails[d.id] = d` for the result d of each request, in order. */
  ghost function Record(details: map<string, JsonValue>, reqs: seq<Request>): map<string, JsonValue>
    requires AllDetailsOk(reqs)
    decreases |reqs|
  {
    if reqs == [] then details
    else
      var d := reqs[0].result.value;
      Record(details[IdKey(d) := d], reqs[1..])
  }

  /** The dictionary holds a key exactly when it held it before or some detail has that id. */
  lemma {:induction false} RecordKeys(details: map<string, JsonValue>, reqs: seq<Request>, k: string)
    requires AllDetailsOk(reqs)
    ensures k in Record(details, reqs) <==>
      k in details || exists j :: 0 <= j < |reqs| && IdKey(reqs[j].result.value) == k
    decreases |reqs|
  {
    if reqs != [] {
      var d := reqs[0].result.value;
      RecordKeys(details[IdKey(d) := d], reqs[1..], k);
      if k in Record(details, reqs) && k !in details && IdKey(d) != k {
        var j :| 0 <= j < |reqs[1..]| && IdKey(reqs[1..][j].result.value) == k;
        assert IdKey(reqs[j + 1].result.value) == k;
      }
      if j :| 0 <= j < |reqs| && IdKey(reqs[j].result.value) == k {
        if j > 0 {
          assert IdKey(reqs[1..][j - 1].result.value) == k;
        }
      }
    }
  }

  /** A detail stays in the dictionary unless a later detail has the same id: the last one wins. */
  lemma {:induction false} RecordLastWins(details: map<string, JsonValue>, reqs: seq<Request>, j: nat)
    requires AllDetailsOk(reqs) && j < |reqs|
    requires forall j' :: j < j' < |reqs| ==> IdKey(reqs[j'].result.value) != IdKey(reqs[j].result.value)
    ensures var d := reqs[j].result.value;
      IdKey(d) in Record(details, reqs) && Record(details, reqs)[IdKey(d)] == d
    decreases |reqs|
  {
    var d := reqs[0].result.value;
    if j == 0 {
      RecordUntouched(details[IdKey(d) := d], reqs[1..], IdKey(d));
    } else {
      assert reqs[1..][j - 1] == reqs[j];
      RecordLastWins(details[IdKey(d) := d], reqs[1..], j - 1);
    }
  }

  /** A key no detail names keeps its value. */
  lemma {:induction false} RecordUntouched(details: map<string, JsonValue>, reqs: seq<Request>, k: string)
    requires AllDetailsOk(reqs) && k in details
    requires forall j :: 0 <= j < |reqs| ==> IdKey(reqs[j].result.value) != k
    ensures k in Record(details, reqs) && Record(details, reqs)[k] == details[k]
    decreases |reqs|
  {
    if reqs != [] {
      var d := reqs[0].result.value;
      assert IdKey(d) != k;
      forall j | 0 <= j < |reqs[1..]| ensures IdKey(reqs[1..][j].result.value) != k {
        assert reqs[1..][j] == reqs[j + 1];
      }
      RecordUntouched(details[IdKey(d) := d], reqs[1..], k);
    }
  }

  // ---------------------------------------------------------------------------
  // Properties of the detail loop and of the whole request

  /** A sequence that starts with `prefix + [x]` starts with `prefix`, and continues with x. */
  lemma ExtendedPrefix<T>(s: seq<T>, prefix: seq<T>, x: T)
    requires |prefix| + 1 <= |s| && s[..|prefix| + 1] == prefix + [x]
    ensures s[..|prefix|] == prefix && s[|prefix|] == x
    ensures s[|prefix|..] == [x] + s[|prefix| + 1..]
  {
    assert s[..|prefix|] == s[..|prefix| + 1][..|prefix|];
    assert s[|prefix|..] == [s[|prefix|]] + s[|prefix| + 1..];
  }

  /** `req` is the detail fetch for `id`: its key, the expiry, no bypass, the producer for that id. */
  ghost predicate IsDetailRequest(req: Request, id: JsValue, month: nat, day: nat, detailApi: JsValue -> HttpResult) {
    && req.key == DetailKey(id, month, day)
    && req.ttl == Expiry
    && !req.bypass
    && req.producer == DetailFetcher(detailApi(id))
  }

  /** Request j of `reqs` is the detail fetch of iteration j - base, for that element's id. */
  ghost predicate DetailFetchAt(reqs: seq<Request>, j: int, base: nat, list: JsonValue, month: nat, day: nat,
                                detailApi: JsValue -> HttpResult) {
    && base <= j < |reqs|
    && ElementId(list, j - base).Ok?
    && IsDetailRequest(reqs[j], ElementId(list, j - base).value, month, day, detailApi)
  }

  /** The requests the loop adds from iteration i on are detail fetches, in iteration order. */
  ghost predicate LoopRequestsFrom(t: Trace, list: JsonValue, i: nat, n: nat, details: map<string, JsonValue>,
                                   month: nat, day: nat, detailApi: JsValue -> HttpResult, offset: nat)
    requires i <= n
  {
    var reqs := DetailLoop(t, list, i, n, details, month, day, detailApi).trace.requests;
    && |t.requests| <= |reqs| && reqs[..|t.requests|] == t.requests
    && |reqs| - |t.requests| <= n - i
    && forall j :: |t.requests| <= j < |reqs| ==> DetailFetchAt(reqs, j, offset, list, month, day, detailApi)
  }

  /**
    The loop, from iteration i, only appends to the fetch history: at most one
    fetch per remaining iteration, in order, each without bypass, under the
    element's detail key and with the detail producer for the element's id.
    Request j of the history belongs to iteration j - offset.
  */
  lemma {:induction false} DetailLoopRequests(t: Trace, list: JsonValue, i: nat, n: nat, details: map<string, JsonValue>,
                                              month: nat, day: nat, detailApi: JsValue -> HttpResult, offset: nat)
    requires i <= n && offset + i == |t.requests|
    ensures var reqs := DetailLoop(t, list, i, n, details, month, day, detailApi).trace.requests;
      && |t.requests| <= |reqs| && reqs[..|t.requests|] == t.requests
      && |reqs| - |t.requests| <= n - i
      && forall j :: |t.requests| <= j < |reqs| ==> DetailFetchAt(reqs, j, offset, list, month, day, detailApi)
    decreases n - i
  {
    if i < n && ElementId(list, i).Ok? {
      var id := ElementId(list, i).value;
      var (t', r) := Call(t, DetailKey(id, month, day), DetailFetcher(detailApi(id)), Expiry, false);
      if r.Ok? && DetailId(r.value).Ok? {
        var details' := details[JsText(DetailId(r.value).value) := r.value];
        DetailLoopRequests(t', list, i + 1, n, details', month, day, detailApi, offset);
        DetailLoopContinues(t, list, i, n, details, month, day, detailApi, offset);
      } else {
        DetailLoopStops(t, list, i, n, details, month, day, detailApi, offset);
      }
    } else {
      assert DetailLoop(t, list, i, n, details, month, day, detailApi).trace == t;
    }
    assert LoopRequestsFrom(t, list, i, n, details, month, day, detailApi, offset);
  }

  /** An iteration whose fetch goes on to the next one: its request, then the later ones. */
  lemma DetailLoopContinues(t: Trace, list: JsonValue, i: nat, n: nat, details: map<string, JsonValue>,
                            month: nat, day: nat, detailApi: JsValue -> HttpResult, offset: nat)
    requires i < n && offset + i == |t.requests| && ElementId(list, i).Ok?
    requires var id := ElementId(list, i).value;
      var (t', r) := Call(t, DetailKey(id, month, day), DetailFetcher(detailApi(id)), Expiry, false);
      && r.Ok? && DetailId(r.value).Ok?
      && LoopRequestsFrom(t', list, i + 1, n, details[JsText(DetailId(r.value).value) := r.value],
                          month, day, detailApi, offset)
    ensures LoopRequestsFrom(t, list, i, n, details, month, day, detailApi, offset)
  {
    var id := ElementId(list, i).value;
    var key := DetailKey(id, month, day);
    var producer := DetailFetcher(detailApi(id));
    var (t', r) := Call(t, key, producer, Expiry, false);
    var req := Request(key, Expiry, false, producer, r);
    assert t'.requests == t.requests + [req];
    var details' := details[JsText(DetailId(r.value).value) := r.value];
    var reqs := DetailLoop(t', list, i + 1, n, details', month, day, detailApi).trace.requests;
    assert DetailLoop(t, list, i, n, details, month, day, detailApi).trace.requests == reqs;
    DetailFetchesExtend(reqs, t.requests, req, list, i, offset, month, day, detailApi);
  }

  /** An iteration whose fetch, or the read of the detail's id, throws: its request is the last. */
  lemma DetailLoopStops(t: Trace, list: JsonValue, i: nat, n: nat, details: map<string, JsonValue>,
                        month: nat, day: nat, detailApi: JsValue -> HttpResult, offset: nat)
    requires i < n && offset + i == |t.requests| && ElementId(list, i).Ok?
    requires var id := ElementId(list, i).value;
      var call := Call(t, DetailKey(id, month, day), DetailFetcher(detailApi(id)), Expiry, false);
      !(call.1.Ok? && DetailId(call.1.value).Ok?)
    ensures LoopRequestsFrom(t, list, i, n, details, month, day, detailApi, offset)
  {
    var id := ElementId(list, i).value;
    var key := DetailKey(id, month, day);
    var producer := DetailFetcher(detailApi(id));
    var call := Call(t, key, producer, Expiry, false);
    var req := Request(key, Expiry, false, producer, call.1);
    assert DetailLoop(t, list, i, n, details, month, day, detailApi).trace == call.0;
    LastRequest(call.0.requests, t.requests, req, list, i, offset, month, day, detailApi);
  }

  /** A trace that ends with one detail fetch after `prefix`. */
  lemma LastRequest(reqs: seq<Request>, prefix: seq<Request>, req: Request, list: JsonValue, i: nat, offset: nat,
                    month: nat, day: nat, detailApi: JsValue -> HttpResult)
    requires reqs == prefix + [req]
    requires offset + i == |prefix| && ElementId(list, i).Ok?
    requires IsDetailRequest(req, ElementId(list, i).value, month, day, detailApi)
    ensures reqs[..|prefix|] == prefix
    ensures forall j :: |prefix| <= j < |reqs| ==> DetailFetchAt(reqs, j, offset, list, month, day, detailApi)
  {
    assert reqs[..|prefix|] == prefix;
    assert DetailFetchAt(reqs, |prefix|, offset, list, month, day, detailApi);
  }

  /** The inductive step of DetailLoopRequests: one more detail fetch in front of the later ones. */
  lemma DetailFetchesExtend(reqs: seq<Request>, prefix: seq<Request>, req: Request, list: JsonValue, i: nat, offset: nat,
                            month: nat, day: nat, detailApi: JsValue -> HttpResult)
    requires |prefix| + 1 <= |reqs| && reqs[..|prefix| + 1] == prefix + [req]
    requires offset + i == |prefix| && ElementId(list, i).Ok?
    requires IsDetailRequest(req, ElementId(list, i).value, month, day, detailApi)
    requires forall j :: |prefix| + 1 <= j < |reqs| ==> DetailFetchAt(reqs, j, offset, list, month, day, detailApi)
    ensures reqs[..|prefix|] == prefix
    ensures forall j :: |prefix| <= j < |reqs| ==> DetailFetchAt(reqs, j, offset, list, month, day, detailApi)
  {
    ExtendedPrefix(reqs, prefix, req);
    assert DetailFetchAt(reqs, |prefix|, offset, list, month, day, detailApi);
  }

  /**
    When the loop from iteration i succeeds, it made exactly one fetch per
    remaining iteration, each fetch returned a detail other than null, and the
    dictionary is what filing each of those details under its own id gives.
  */
  lemma {:induction false} DetailLoopOnSuccess(t: Trace, list: JsonValue, i: nat, n: nat, details: map<string, JsonValue>,
                                               month: nat, day: nat, detailApi: JsValue -> HttpResult)
    requires i <= n
    requires DetailLoop(t, list, i, n, details, month, day, detailApi).result.Ok?
    ensures var run := DetailLoop(t, list, i, n, details, month, day, detailApi);
      var reqs := run.trace.requests;
      && |t.requests| <= |reqs| && reqs[..|t.requests|] == t.requests
      && |reqs| - |t.requests| == n - i
      && AllDetailsOk(reqs[|t.requests|..])
      && run.result.value == Props(list, Record(details, reqs[|t.requests|..]))
    decreases n - i
  {
    if i < n {
      var id := ElementId(list, i).value;
      var key := DetailKey(id, month, day);
      var producer := DetailFetcher(detailApi(id));
      var s := FetchStep(t.store, key, producer, Expiry, false);
      var req := Request(key, Expiry, false, producer, s.result);
      var t' := Trace(s.store, t.log + s.events, t.requests + [req]);
      assert Call(t, key, producer, Expiry, false) == (t', s.result);
      var detail := s.result.value;
      var details' := details[JsText(DetailId(detail).value) := detail];
      assert DetailLoop(t, list, i, n, details, month, day, detailApi)
          == DetailLoop(t', list, i + 1, n, details', month, day, detailApi);
      DetailLoopOnSuccess(t', list, i + 1, n, details', month, day, detailApi);
      var reqs := DetailLoop(t', list, i + 1, n, details', month, day, detailApi).trace.requests;
      ExtendedPrefix(reqs, t.requests, req);
      var added := reqs[|t.requests|..];
      assert added[0] == req && added[1..] == reqs[|t'.requests|..];
      assert AllDetailsOk(added);
      assert IdKey(detail) == JsText(DetailId(detail).value);
    } else {
      assert DetailLoop(t, list, i, n, details, month, day, detailApi).trace == t;
    }
  }

  /** The detail phase appends to the history only detail fetches of successive elements. */
  lemma DetailPhaseRequests(t: Trace, list: JsonValue, month: nat, day: nat, detailApi: JsValue -> HttpResult)
    ensures var reqs := DetailPhase(t, list, month, day, detailApi).trace.requests;
      && |t.requests| <= |reqs| && reqs[..|t.requests|] == t.requests
      && forall j :: |t.requests| <= j < |reqs| ==>
           DetailFetchAt(reqs, j, |t.requests|, list, month, day, detailApi)
  {
    var length := Member(Defined(list), Name("length"));
    if length.Ok? {
      DetailLoopRequests(t, list, 0, LoopCount(length.value), map[], month, day, detailApi, |t.requests|);
    }
  }

  /** A detail phase that succeeds makes one fetch per iteration and files every detail it fetched. */
  lemma DetailPhaseDetails(t: Trace, list: JsonValue, month: nat, day: nat, detailApi: JsValue -> HttpResult)
    requires DetailPhase(t, list, month, day, detailApi).result.Ok?
    ensures var run := DetailPhase(t, list, month, day, detailApi);
      var reqs := run.trace.requests;
      && Member(Defined(list), Name("length")).Ok?
      && |t.requests| <= |reqs| && reqs[..|t.requests|] == t.requests
      && |reqs| == |t.requests| + LoopCount(Member(Defined(list), Name("length")).value)
      && AllDetailsOk(reqs[|t.requests|..])
      && run.result.value == Props(list, Record(map[], reqs[|t.requests|..]))
  {
    var length := Member(Defined(list), Name("length"));
    DetailLoopOnSuccess(t, list, 0, LoopCount(length.value), map[], month, day, detailApi);
  }

  /** The list phase appends the list fetch and, exactly when its result is not an array, the retry. */
  lemma FetchListRequests(t: Trace, month: nat, day: nat, listApi: HttpResult)
    ensures var key := ListKey(month, day);
      var first := Call(t, key, ListFetcher(listApi), Expiry, false).1;
      var (t', r) := FetchList(t, month, day, listApi);
      var retried := first.Ok? && !first.value.JArr?;
      && t'.requests == t.requests + [Request(key, Expiry, false, ListFetcher(listApi), first)]
           + (if retried then [Request(key, Expiry, true, ListFetcher(listApi), r)] else [])
      && (!retried ==> r == first)
  {
  }

  /**
    The list phase: the first fetch is of the list key without bypass, and a
    second one, of the same key with the same producer and with bypass, follows
    when the first result is not an array.
  */
  lemma ListPhase(t: Trace, month: nat, day: nat, listApi: HttpResult, detailApi: JsValue -> HttpResult)
    ensures var reqs := ServerSideProps(t, month, day, listApi, detailApi).trace.requests;
      var r0 := |t.requests|;
      && |reqs| > r0 && reqs[..r0] == t.requests
      && reqs[r0] == Request(ListKey(month, day), Expiry, false, ListFetcher(listApi), reqs[r0].result)
      && (reqs[r0].result.Ok? && !reqs[r0].result.value.JArr? ==>
            && |reqs| > r0 + 1
            && reqs[r0 + 1] == Request(ListKey(month, day), Expiry, true, ListFetcher(listApi), reqs[r0 + 1].result))
  {
    var reqs := ServerSideProps(t, month, day, listApi, detailApi).trace.requests;
    var r0 := |t.requests|;
    FetchListRequests(t, month, day, listApi);
    var (t1, list) := FetchList(t, month, day, listApi);
    if list.Ok? {
      DetailPhaseRequests(t1, list.value, month, day, detailApi);
      assert reqs[..|t1.requests|] == t1.requests;
      assert reqs[..r0] == t.requests by { assert reqs[..r0] == t1.requests[..r0]; }
      assert reqs[r0] == t1.requests[r0];
      if |t1.requests| == r0 + 2 {
        assert reqs[r0 + 1] == t1.requests[r0 + 1];
      }
    }
  }

  /**
    After the list fetches (one, or two when the first result is not an
    array) every fetch is a detail fetch: of another key and without bypass.
    So the list is retried at most once, and only when it is not an array.
  */
  lemma NoFurtherListFetch(t: Trace, month: nat, day: nat, listApi: HttpResult, detailApi: JsValue -> HttpResult)
    ensures var reqs := ServerSideProps(t, month, day, listApi, detailApi).trace.requests;
      var r0 := |t.requests|;
      && |reqs| > r0
      && var retried := reqs[r0].result.Ok? && !reqs[r0].result.value.JArr?;
      && forall j :: r0 + (if retried then 2 else 1) <= j < |reqs| ==>
           reqs[j].key != ListKey(month, day) && !reqs[j].bypass
  {
    var key := ListKey(month, day);
    var reqs := ServerSideProps(t, month, day, listApi, detailApi).trace.requests;
    var r0 := |t.requests|;
    FetchListRequests(t, month, day, listApi);
    var (t1, list) := FetchList(t, month, day, listApi);
    if list.Ok? {
      DetailPhaseRequests(t1, list.value, month, day, detailApi);
      assert reqs[..|t1.requests|] == t1.requests;
      assert reqs[r0] == t1.requests[r0];
      DetailFetchesAreNotListFetches(reqs, |t1.requests|, list.value, month, day, detailApi);
    }
  }

  /** The detail fetches use neither the list's key nor bypass. */
  lemma DetailFetchesAreNotListFetches(reqs: seq<Request>, base: nat, list: JsonValue,
                                       month: nat, day: nat, detailApi: JsValue -> HttpResult)
    requires forall j :: base <= j < |reqs| ==> DetailFetchAt(reqs, j, base, list, month, day, detailApi)
    ensures forall j :: base <= j < |reqs| ==> reqs[j].key != ListKey(month, day) && !reqs[j].bypass
  {
    forall j | base <= j < |reqs| ensures reqs[j].key != ListKey(month, day) && !reqs[j].bypass {
      assert DetailFetchAt(reqs, j, base, list, month, day, detailApi);
      DetailKeyIsNotListKey(ElementId(list, j - base).value, month, day, month, day);
    }
  }

  /**
    A request that succeeds ends its list fetches with the list the page
    receives: one fetch when the first result is that list and an array, two
    otherwise. What comes after them is the detail phase on that list.
  */
  lemma ListPhaseOnSuccess(t: Trace, month: nat, day: nat, listApi: HttpResult, detailApi: JsValue -> HttpResult)
    requires ServerSideProps(t, month, day, listApi, detailApi).result.Ok?
    ensures var run := ServerSideProps(t, month, day, listApi, detailApi);
      var reqs := run.trace.requests;
      var r0 := |t.requests|;
      var list := run.result.value.activities;
      var (t1, fetched) := FetchList(t, month, day, listApi);
      && fetched == Ok(list)
      && run == DetailPhase(t1, list, month, day, detailApi)
      && |t1.requests| > r0
      && |t1.requests| == (if t1.requests[r0].result == Ok(list) && list.JArr? then r0 + 1 else r0 + 2)
      && t1.requests[|t1.requests| - 1].result == Ok(list)
  {
    var run := ServerSideProps(t, month, day, listApi, detailApi);
    var r0 := |t.requests|;
    var key := ListKey(month, day);
    var (t0, first) := Call(t, key, ListFetcher(listApi), Expiry, false);
    var (t1, list) := FetchList(t, month, day, listApi);
    FetchListRequests(t, month, day, listApi);
    assert run == DetailPhase(t1, list.value, month, day, detailApi);
    DetailPhaseDetails(t1, list.value, month, day, detailApi);
    if first.Ok? && !first.value.JArr? {
      assert |t1.requests| == r0 + 2;
    } else {
      assert |t1.requests| == r0 + 1 && list == first;
    }
  }

  /**
    On success, the list the page receives is the last list fetched; after the
    list fetches come exactly n detail fetches, n being the number of
    iterations `i < list.length` allows; and the dictionary is the details
    filed under their own ids, later ones overwriting earlier ones with the
    same id.
  */
  lemma DetailPhaseOnSuccess(t: Trace, month: nat, day: nat, listApi: HttpResult, detailApi: JsValue -> HttpResult)
    requires ServerSideProps(t, month, day, listApi, detailApi).result.Ok?
    ensures var run := ServerSideProps(t, month, day, listApi, detailApi);
      var reqs := run.trace.requests;
      var r0 := |t.requests|;
      var list := run.result.value.activities;
      var base := if |reqs| > r0 && reqs[r0].result == Ok(list) && list.JArr? then r0 + 1 else r0 + 2;
      && |reqs| >= base && reqs[base - 1].result == Ok(list)
      && Member(Defined(list), Name("length")).Ok?
      && |reqs| == base + LoopCount(Member(Defined(list), Name("length")).value)
      && AllDetailsOk(reqs[base..])
      && run.result.value.details == Record(map[], reqs[base..])
  {
    var run := ServerSideProps(t, month, day, listApi, detailApi);
    var list := run.result.value.activities;
    ListPhaseOnSuccess(t, month, day, listApi, detailApi);
    var t1 := FetchList(t, month, day, listApi).0;
    DetailPhaseDetails(t1, list, month, day, detailApi);
    var reqs := run.trace.requests;
    var base := |t1.requests|;
    assert reqs[..base] == t1.requests;
    assert reqs[base - 1] == t1.requests[base - 1];
    assert reqs[|t.requests|] == t1.requests[|t.requests|];
  }

  /** On success, the detail fetches follow the list fetches, one per element in list order. */
  lemma DetailFetchesInOrder(t: Trace, month: nat, day: nat, listApi: HttpResult, detailApi: JsValue -> HttpResult)
    requires ServerSideProps(t, month, day, listApi, detailApi).result.Ok?
    ensures var run := ServerSideProps(t, month, day, listApi, detailApi);
      var reqs := run.trace.requests;
      var r0 := |t.requests|;
      var list := run.result.value.activities;
      var base := if |reqs| > r0 && reqs[r0].result == Ok(list) && list.JArr? then r0 + 1 else r0 + 2;
      && |reqs| >= base
      && forall j :: base <= j < |reqs| ==> DetailFetchAt(reqs, j, base, list, month, day, detailApi)
  {
    var run := ServerSideProps(t, month, day, listApi, detailApi);
    var list := run.result.value.activities;
    ListPhaseOnSuccess(t, month, day, listApi, detailApi);
    var t1 := FetchList(t, month, day, listApi).0;
    DetailPhaseRequests(t1, list, month, day, detailApi);
    var reqs := run.trace.requests;
    var r0 := |t.requests|;
    assert reqs[..|t1.requests|] == t1.requests;
    assert reqs[r0] == t1.requests[r0];
    var base := if |reqs| > r0 && reqs[r0].result == Ok(list) && list.JArr? then r0 + 1 else r0 + 2;
    assert base == |t1.requests|;
    forall j | base <= j < |reqs| ensures DetailFetchAt(reqs, j, base, list, month, day, detailApi) {
      assert DetailFetchAt(reqs, j, |t1.requests|, list, month, day, detailApi);
    }
  }

  /** For an array, the loop visits each element once: n is its length and the id is the element's own. */
  lemma ArrayIterations(items: seq<JsonValue>, j: nat)
    ensures LoopCount(Member(Defined(JArr(items)), Name("length")).value) == |items|
    ensures j < |items| ==> ElementId(JArr(items), j) == Member(Defined(items[j]), Name("id"))
  {
  }

  /**
    The shape is not checked after the retry: when Strava answers with an
    object that has no `length` member (its error answer, say), the page gets
    that object as its list and no details, after exactly two list fetches,
    the second with bypass.
  */
  lemma NonArrayAfterRetry(t: Trace, month: nat, day: nat, fields: seq<Field>, detailApi: JsValue -> HttpResult)
    requires ListKey(month, day) !in t.store
    requires FieldValue(fields, "length") == Undefined
    ensures var run := ServerSideProps(t, month, day, Response(JObj(fields)), detailApi);
      && run.result == Ok(Props(JObj(fields), map[]))
      && |run.trace.requests| == |t.requests| + 2
      && run.trace.requests[|t.requests| + 1].bypass
  {
    ParseStringify(JObj(fields));
  }

  /**
    A null list survives the retry too: after two list fetches, the second
    with bypass, reading `cachedActivities.length` throws.
  */
  lemma NullListThrows(t: Trace, month: nat, day: nat, detailApi: JsValue -> HttpResult)
    requires ListKey(month, day) !in t.store
    ensures var run := ServerSideProps(t, month, day, Response(JNull), detailApi);
      && run.result == Err(TypeError("Cannot read properties of null"))
      && |run.trace.requests| == |t.requests| + 2
      && run.trace.requests[|t.requests| + 1].bypass
  {
    ParseStringify(JNull);
  }

  /**
    The retry repairs a stored list that is not an array: when Strava now
    answers with an array, the list phase returns that array after exactly
    one more fetch, with bypass, and a request that succeeds hands it to the
    page. (The detail phase can still throw, on an element that is null.)
  */
  lemma ListRecovered(t: Trace, month: nat, day: nat, bad: JsonValue, items: seq<JsonValue>,
                      detailApi: JsValue -> HttpResult)
    requires ListKey(month, day) in t.store
    requires Parse(t.store[ListKey(month, day)].text) == Some(bad) && bad != JNull && !bad.JArr?
    ensures var fetched := FetchList(t, month, day, Response(JArr(items)));
      && fetched.1 == Ok(JArr(items))
      && |fetched.0.requests| == |t.requests| + 2
      && !fetched.0.requests[|t.requests|].bypass
      && fetched.0.requests[|t.requests| + 1].bypass
      && fetched.0.store == t.store[ListKey(month, day) := Entry(Stringify(JArr(items)), Expiry)]
    ensures var run := ServerSideProps(t, month, day, Response(JArr(items)), detailApi);
      run.result.Ok? ==> run.result.value.activities == JArr(items)
  {
    ParseStringify(JArr(items));
    var run := ServerSideProps(t, month, day, Response(JArr(items)), detailApi);
    if run.result.Ok? {
      ListPhaseOnSuccess(t, month, day, Response(JArr(items)), detailApi);
    }
  }

  /** A thrown list request yields [], which is cached under the list key; the page gets no details. */
  lemma ListFallbackIsCached(t: Trace, month: nat, day: nat, detailApi: JsValue -> HttpResult)
    requires ListKey(month, day) !in t.store
    ensures var run := ServerSideProps(t, month, day, NetworkError, detailApi);
      && run.result == Ok(Props(JArr([]), map[]))
      && run.trace.store == t.store[ListKey(month, day) := Entry(Stringify(JArr([])), Expiry)]
  {
  }

  /** A thrown detail request yields {}, which is cached under the detail key and filed under "undefined". */
  lemma DetailFallbackIsCached(store: Store, key: string)
    requires key !in store
    ensures var s := FetchStep(store, key, DetailFetcher(NetworkError), Expiry, false);
      && s.result == Ok(JObj([]))
      && s.store == store[key := Entry(Stringify(JObj([])), Expiry)]
      && IdKey(JObj([])) == "undefined"
  {
  }

  // ---------------------------------------------------------------------------
  // Properties of the keys

  /** A digit string, a dash and a digit string split in one way only. */
  lemma SplitAtDash(a: string, b: string, c: string, d: string)
    requires IsDigits(a) && IsDigits(b) && IsDigits(c) && IsDigits(d)
    requires a + "-" + b == c + "-" + d
    ensures a == c && b == d
  {
    var s := a + "-" + b;
    assert forall k :: 0 <= k < |a| ==> s[k] != '-';
    assert forall k :: 0 <= k < |c| ==> s[k] != '-';
    assert s[|a|] == '-' && s[|c|] == '-';
    assert a == s[..|a|] == c;
    assert b == s[|a| + 1..] == d;
  }

  /** Distinct date buckets have distinct list keys. */
  lemma ListKeyInjective(m1: nat, d1: nat, m2: nat, d2: nat)
    requires ListKey(m1, d1) == ListKey(m2, d2)
    ensures m1 == m2 && d1 == d2
  {
    var prefix := "allActivities-";
    assert Bucket(m1, d1) == ListKey(m1, d1)[|prefix|..] == Bucket(m2, d2);
    NatToStringDigits(m1);
    NatToStringDigits(d1);
    NatToStringDigits(m2);
    NatToStringDigits(d2);
    SplitAtDash(NatToString(m1), NatToString(d1), NatToString(m2), NatToString(d2));
    NatToStringInjective(m1, m2);
    NatToStringInjective(d1, d2);
  }

  /** Within one date bucket, detail keys are equal only for ids that print the same. */
  lemma DetailKeyInjective(id1: JsValue, id2: JsValue, month: nat, day: nat)
    requires DetailKey(id1, month, day) == DetailKey(id2, month, day)
    ensures JsText(id1) == JsText(id2)
  {
    var k := DetailKey(id1, month, day);
    var x1, x2 := JsText(id1), JsText(id2);
    assert |x1| == |x2|;
    forall j | 0 <= j < |x1| ensures x1[j] == x2[j] {
      assert k[9 + j] == x1[j];
      assert k[9 + j] == x2[j];
    }
  }

  /** Distinct numeric ids, as Strava gives them, have distinct detail keys within one bucket. */
  lemma NumericIdsHaveDistinctDetailKeys(a: int, b: int, month: nat, day: nat)
    requires a != b
    ensures DetailKey(Defined(JNum(a)), month, day) != DetailKey(Defined(JNum(b)), month, day)
  {
    if DetailKey(Defined(JNum(a)), month, day) == DetailKey(Defined(JNum(b)), month, day) {
      DetailKeyInjective(Defined(JNum(a)), Defined(JNum(b)), month, day);
      IntToStringInjective(a, b);
    }
  }

  /** No detail key is a list key. */
  lemma DetailKeyIsNotListKey(id: JsValue, month: nat, day: nat, month': nat, day': nat)
    ensures DetailKey(id, month, day) != ListKey(month', day')
  {
    assert DetailKey(id, month, day)[1] == 'c';
    assert ListKey(month', day')[1] == 'l';
  }

  // ---------------------------------------------------------------------------
  // The calendar

  /** One calendar entry: the date part of `start_date`, and the activity's `distance` as read. */
  datatype CalendarDay = CalendarDay(day: string, activity: JsValue)

  /** `s.substring(0, 10)`. */
  function Substring10(s: string): (r: string)
    ensures |r| == if |s| < 10 then |s| else 10
    ensures r <= s
  {
    s[..if |s| < 10 then |s| else 10]
  }

  /** The entry for `activity`: `start_date` must be a string, or the call of substring throws. */
  function CalendarEntry(activity: JsValue): Result<CalendarDay> {
    var startDate :- Member(activity, Name("start_date"));
    if startDate.Defined? && startDate.json.JStr? then
      var distance := Member(activity, Name("distance")).value;
      Ok(CalendarDay(Substring10(startDate.json.s), distance))
    else if startDate == Undefined || startDate == Defined(JNull) then
      Err(TypeError("Cannot read properties of " + JsText(startDate)))
    else
      Err(TypeError("substring is not a function"))
  }

  /** The entry for `activities[j]`. */
  function CalendarEntryAt(activities: JsValue, j: nat): Result<CalendarDay> {
    var activity :- Member(activities, Index(j));
    CalendarEntry(activity)
  }

  /** The number of iterations of `i < (activities || []).length`. */
  function CalendarLength(activities: JsValue): nat {
    var list := if Truthy(activities) then activities else Defined(JArr([]));
    match Member(list, Name("length"))
    case Ok(length) => LoopCount(length)
    case Err(_) => 0
  }

  /**
    The loop of fillActivityCalendar: one entry per iteration, in order; it
    throws at the first activity whose entry throws.
  */
  method FillActivityCalendar(activities: JsValue) returns (r: Result<seq<CalendarDay>>)
    ensures r.Ok? <==> forall j :: 0 <= j < CalendarLength(activities) ==> CalendarEntryAt(activities, j).Ok?
    ensures r.Ok? ==>
      && |r.value| == CalendarLength(activities)
      && (forall j :: 0 <= j < |r.value| ==> r.value[j] == CalendarEntryAt(activities, j).value)
    ensures r.Err? ==>
      exists j :: && 0 <= j < CalendarLength(activities)
                  && CalendarEntryAt(activities, j).Err?
                  && r == Err(CalendarEntryAt(activities, j).error)
                  && (forall j' :: 0 <= j' < j ==> CalendarEntryAt(activities, j').Ok?)
    ensures !Truthy(activities) ==> r == Ok([])
  {
    var n := CalendarLength(activities);
    var allActivities: seq<CalendarDay> := [];
    var i := 0;
    while i < n
      invariant i <= n && |allActivities| == i
      invariant forall j :: 0 <= j < i ==> CalendarEntryAt(activities, j) == Ok(allActivities[j])
    {
      var entry := CalendarEntryAt(activities, i);
      if entry.Err? {
        return Err(entry.error);
      }
      allActivities := allActivities + [entry.value];
      i := i + 1;
    }
    r := Ok(allActivities);
  }

  /** For an array of activities: one entry per activity, each with the first ten characters of its start date. */
  lemma CalendarOfArray(items: seq<JsonValue>, j: nat)
    requires j < |items|
    ensures CalendarLength(Defined(JArr(items))) == |items|
    ensures var sd := Member(Defined(items[j]), Name("start_date"));
      sd.Ok? && sd.value.Defined? && sd.value.json.JStr? ==>
        CalendarEntryAt(Defined(JArr(items)), j).Ok?
        && CalendarEntryAt(Defined(JArr(items)), j).value.day == Substring10(sd.value.json.s)
  {
  }
}
