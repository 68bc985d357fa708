/** `VstsRestClientImpl` of src/VstsRestClient.ts: the REST client of the newer
    revision. Every request is modelled in two steps: the URL the client asks
    for, and the completion, a function of what the transport delivered
    (`Fetched`) to the settled promise the client hands back. */
module RestClient {
  import opened Wrappers
  import Text

  // ---------------------------------------------------------------------------
  // Entities

  /** A build. `result` is absent (or empty) while the build runs. */
  datatype Build = Build(id: int, result: Option<string>, reason: string, status: string,
                         startTime: string, queueTime: string, webHref: string)

  datatype BuildDefinition = BuildDefinition(id: int, name: string, revision: int, sourceBranch: Option<string>)

  /** `definitions.map(d => d.id)`. */
  function DefinitionIds(definitions: seq<BuildDefinition>): (r: seq<int>)
    ensures |r| == |definitions| && forall i :: 0 <= i < |definitions| ==> r[i] == definitions[i].id
  {
    if |definitions| == 0 then [] else [definitions[0].id] + DefinitionIds(definitions[1..])
  }

  datatype BuildLog = BuildLog(buildId: int, messages: seq<string>)

  datatype BuildLogContainer = BuildLogContainer(id: int, lineCount: int)

  datatype QueueBuildResult = QueueBuildResult(id: int, definition: BuildDefinition)

  /** One entry of the `ValidationResults` list of an error response to a POST. */
  datatype ValidationResult = ValidationResult(message: string, result: string)

  datatype HttpResponse<T> = HttpResponse(statusCode: int, value: T)

  datatype ErrorType = Unknown | Vsts

  datatype HttpResponseError = HttpResponseError(statusCode: int, errorType: ErrorType, errorMessage: string)
  {
    predicate IsUnauthorizedError() {
      statusCode == 401
    }
  }

  /** What a rejected promise carries: nothing (a falsy value), an `HttpResponseError`
      thrown by the client, a node-fetch `FetchError` (its `type`, and its errno `code`
      for a system error), or any other error object (a `TypeError` from reading a
      property of `undefined`, say), which has none of those properties. */
  datatype Rejection =
    | Falsy
    | HttpError(error: HttpResponseError)
    | FetchError(errType: string, code: Option<string>)
    | Fault(description: string)

  /** `isHttpResponseError`: the object has an `errorType`, which only the client's own
      errors have. */
  predicate IsHttpResponseError(e: Rejection) {
    e.HttpError?
  }

  type Outcome<T> = Settled<HttpResponse<T>, Rejection>

  /** The fields of the settings the client reads. */
  datatype ClientSettings = ClientSettings(account: string, username: string, password: string, project: string)

  // ---------------------------------------------------------------------------
  // Transport

  /** What `fetch` and `response.json()` deliver for one request: no response at all
      (node-fetch then rejects with a system `FetchError` carrying the errno code), or
      a status code with a body that parses as JSON (`Some`) or does not (`None`). */
  datatype Fetched<B> = Unreachable(code: string) | Responded(status: int, body: Option<B>)

  /** `response.ok`. */
  predicate IsOk(status: int) {
    200 <= status <= 299
  }

  /** A JSON object seen through its `value` property, which may be missing. */
  datatype Envelope<T> = Envelope(value: Option<T>)

  /** The body of a POST response: the payload, and the `ValidationResults` list when
      the object has that key. */
  datatype PostBody<T> = PostBody(payload: T, validationResults: Option<seq<ValidationResult>>)

  /** `isVstsErrorResponse`: the body has a `ValidationResults` key. */
  predicate IsVstsErrorResponse<T>(body: PostBody<T>) {
    body.validationResults.Some?
  }

  // ---------------------------------------------------------------------------
  // get, getSingle, getMany

  const UnauthorizedError := HttpResponseError(401, Vsts, "Unauthorized")

  /** `get(url, parser)`: an unreachable server or a body that is not JSON rejects with
      node-fetch's error, status 401 and every other status outside 200..299 reject
      with the client's own error, and an ok response resolves with its status and
      the parsed body. */
  function Get<B, T>(fetched: Fetched<B>, parser: B -> T): (r: Outcome<T>)
    ensures fetched.Unreachable? ==> r == Rejected(FetchError("system", Some(fetched.code)))
    ensures fetched.Responded? && fetched.status == 401 ==> r == Rejected(HttpError(UnauthorizedError))
    ensures fetched.Responded? && fetched.status != 401 && !IsOk(fetched.status) ==>
      r == Rejected(HttpError(HttpResponseError(fetched.status, Vsts, "VSTS request failed")))
    ensures fetched.Responded? && IsOk(fetched.status) && fetched.body.None? ==>
      r == Rejected(FetchError("invalid-json", None))
    ensures fetched.Responded? && IsOk(fetched.status) && fetched.body.Some? ==>
      r == Resolved(HttpResponse(fetched.status, parser(fetched.body.value)))
  {
    match fetched
    case Unreachable(code) => Rejected(FetchError("system", Some(code)))
    case Responded(status, body) =>
      if status == 401 then Rejected(HttpError(UnauthorizedError))
      else if !IsOk(status) then Rejected(HttpError(HttpResponseError(status, Vsts, "VSTS request failed")))
      else if body.None? then Rejected(FetchError("invalid-json", None))
      else Resolved(HttpResponse(status, parser(body.value)))
  }

  /** A `get` rejects with the client's own error exactly when the server answered with
      a status outside 200..299, and that error is the unauthorized one exactly when
      the status was 401; it resolves exactly when the server answered ok with JSON,
      and then carries the server's status. */
  lemma GetClassification<B, T>(fetched: Fetched<B>, parser: B -> T)
    ensures var r := Get(fetched, parser);
      && (r.Rejected? && IsHttpResponseError(r.reason) <==> fetched.Responded? && !IsOk(fetched.status))
      && (r.Rejected? && IsHttpResponseError(r.reason) ==>
            (r.reason.error.IsUnauthorizedError() <==> fetched.status == 401)
            && r.reason.error.statusCode == fetched.status && r.reason.error.errorType == Vsts)
      && (r.Resolved? <==> fetched.Responded? && IsOk(fetched.status) && fetched.body.Some?)
      && (r.Resolved? ==> IsOk(r.value.statusCode) && r.value.statusCode == fetched.status)
  {
  }

  /** `getSingle`: the parsed body itself. */
  function GetSingle<T>(fetched: Fetched<T>): (r: Outcome<T>)
    ensures r.Resolved? ==> fetched.Responded? && fetched.body.Some? && r.value == HttpResponse(fetched.status, fetched.body.value)
    ensures r.Rejected? <==> Get(fetched, (b: T) => b).Rejected?
    ensures r.Rejected? ==> r.reason == Get(fetched, (b: T) => b).reason
  {
    Get(fetched, (b: T) => b)
  }

  /** `getMany`: the body's `value` property, absent when the body has none. */
  function GetMany<T>(fetched: Fetched<Envelope<T>>): (r: Outcome<Option<T>>)
    ensures r.Resolved? ==> fetched.Responded? && fetched.body.Some? && r.value == HttpResponse(fetched.status, fetched.body.value.value)
    ensures r.Rejected? <==> Get(fetched, (e: Envelope<T>) => e.value).Rejected?
    ensures r.Rejected? ==> r.reason == Get(fetched, (e: Envelope<T>) => e.value).reason
  {
    Get(fetched, (e: Envelope<T>) => e.value)
  }

  // ---------------------------------------------------------------------------
  // URLs

  function ApiBase(settings: ClientSettings): string {
    "https://" + settings.account + ".visualstudio.com/DefaultCollection/" + settings.project + "/_apis/build/"
  }

  /** `ids.join(',')` of a list of numbers. */
  function JoinIds(ids: seq<int>): string {
    Text.Join(DecimalIds(ids), ",")
  }

  function DecimalIds(ids: seq<int>): (r: seq<string>)
    ensures |r| == |ids| && forall i :: 0 <= i < |ids| ==> r[i] == Text.IntToDecimal(ids[i])
  {
    if |ids| == 0 then [] else [Text.IntToDecimal(ids[0])] + DecimalIds(ids[1..])
  }

  const DefaultTake := 5
  const BatchSuffix := "&maxBuildsPerDefinition=1"

  /** The query of `getBuilds(definitionIds, take)`; an absent `take` is the default 5. */
  function BuildsUrl(settings: ClientSettings, ids: seq<int>, take: Option<int>): string {
    var url := ApiBase(settings) + "builds?definitions=" + JoinIds(ids) + "&$top="
               + Text.IntToDecimal(take.GetOr(DefaultTake)) + "&api-version=2.0";
    if |ids| > 1 then url + BatchSuffix else url
  }

  /** The id list of a builds query reads back, in order, by splitting on ',' and
      reading each part as a decimal integer. */
  lemma {:induction false} JoinIdsRoundTrip(ids: seq<int>)
    requires |ids| > 0
    ensures var parts := Text.Split(JoinIds(ids), ',');
      |parts| == |ids| && forall i :: 0 <= i < |ids| ==> Text.ParseInt(parts[i]) == Some(ids[i])
  {
    var parts := DecimalIds(ids);
    forall i | 0 <= i < |parts| ensures ',' !in parts[i] {
      Text.IntToDecimalHasNoComma(ids[i]);
    }
    Text.SplitJoin(parts, ',');
    forall i | 0 <= i < |ids| ensures Text.ParseInt(parts[i]) == Some(ids[i]) {
      Text.IntToDecimalRoundTrip(ids[i]);
    }
  }

  /** A builds query asks for one build per definition exactly when it names more
      than one definition. */
  lemma BuildsUrlBatching(settings: ClientSettings, ids: seq<int>, take: Option<int>)
    ensures Text.EndsWith(BuildsUrl(settings, ids, take), BatchSuffix) <==> |ids| > 1
    ensures Text.EndsWith(BuildsUrl(settings, ids, take), "&api-version=2.0") <==> |ids| <= 1
  {
    var url := BuildsUrl(settings, ids, take);
    if |ids| > 1 {
      assert url[|url| - 1] == '1';
    } else {
      assert url[|url| - 1] == '0';
    }
  }

  /** Where the take of a builds query sits: right after `&$top=`, the default 5 when absent. */
  lemma BuildsUrlTake(settings: ClientSettings, ids: seq<int>, take: Option<int>)
    ensures var head := ApiBase(settings) + "builds?definitions=" + JoinIds(ids) + "&$top=";
      var url := BuildsUrl(settings, ids, take);
      && |head| <= |url| && url[..|head|] == head
      && Text.ParseInt(url[|head|..|url| - |"&api-version=2.0"| - (if |ids| > 1 then |BatchSuffix| else 0)])
         == Some(if take.Some? then take.value else 5)
  {
    var head := ApiBase(settings) + "builds?definitions=" + JoinIds(ids) + "&$top=";
    var t := Text.IntToDecimal(take.GetOr(DefaultTake));
    var url := BuildsUrl(settings, ids, take);
    var plain := head + t + "&api-version=2.0";
    var stop := |url| - |"&api-version=2.0"| - (if |ids| > 1 then |BatchSuffix| else 0);
    if |ids| > 1 {
      assert url == plain + BatchSuffix;
      assert url[..|plain|] == plain;
    } else {
      assert url == plain;
    }
    assert stop == |head| + |t|;
    assert url[..|head|] == plain[..|head|] == head;
    assert url[|head|..stop] == plain[|head|..|head| + |t|] == t;
    Text.IntToDecimalRoundTrip(take.GetOr(DefaultTake));
  }

  function BuildUrl(settings: ClientSettings, buildId: int): string {
    ApiBase(settings) + "builds/" + Text.IntToDecimal(buildId) + "?api-version=2.0"
  }

  function LogsUrl(settings: ClientSettings, buildId: int): string {
    ApiBase(settings) + "builds/" + Text.IntToDecimal(buildId) + "/logs?api-version=2.0"
  }

  function LogSectionUrl(settings: ClientSettings, buildId: int, containerId: int): string {
    ApiBase(settings) + "builds/" + Text.IntToDecimal(buildId) + "/logs/" + Text.IntToDecimal(containerId) + "?api-version=2.0"
  }

  function DefinitionsUrl(settings: ClientSettings): string {
    ApiBase(settings) + "definitions?api-version=2.0"
  }

  function QueueUrl(settings: ClientSettings): string {
    ApiBase(settings) + "builds?api-version=2.0"
  }

  // ---------------------------------------------------------------------------
  // getBuilds, getBuild, getDefinitions

  /** The completion of `getBuilds`: a non-empty list comes back as it is, a missing or
      empty one as `[]`, both with the server's status; rejections pass through. */
  function NormaliseBuilds(r: Outcome<Option<seq<Build>>>): (n: Outcome<seq<Build>>)
    ensures r.Rejected? <==> n.Rejected?
    ensures r.Rejected? ==> n.reason == r.reason
    ensures r.Resolved? ==> n.value.statusCode == r.value.statusCode
    ensures r.Resolved? && r.value.value.Some? && |r.value.value.value| > 0 ==> n.value.value == r.value.value.value
    ensures r.Resolved? && (r.value.value.None? || |r.value.value.value| == 0) ==> n.value.value == []
  {
    match r
    case Rejected(e) => Rejected(e)
    case Resolved(HttpResponse(status, value)) =>
      if value.Some? && |value.value| > 0 then Resolved(HttpResponse(status, value.value))
      else Resolved(HttpResponse(status, []))
  }

  /** Normalising is idempotent: an already normalised list stays as it is. */
  lemma NormaliseBuildsIdempotent(r: Outcome<Option<seq<Build>>>)
    requires r.Resolved?
    ensures var n := NormaliseBuilds(r);
      NormaliseBuilds(Resolved(HttpResponse(n.value.statusCode, Some(n.value.value)))) == n
  {
  }

  /** `getBuilds(ids, take)`, asked of the server at `BuildsUrl`: resolves exactly when
      the server answered ok with JSON, and then with the body's `value` list, `[]`
      when that is missing or empty. */
  function GetBuilds(settings: ClientSettings, ids: seq<int>, take: Option<int>,
                     at: string -> Fetched<Envelope<seq<Build>>>): (r: Outcome<seq<Build>>)
    ensures var fetched := at(BuildsUrl(settings, ids, take));
      r.Resolved? <==> fetched.Responded? && IsOk(fetched.status) && fetched.body.Some?
    ensures var fetched := at(BuildsUrl(settings, ids, take));
      r.Resolved? ==> r.value.statusCode == fetched.status
    ensures var fetched := at(BuildsUrl(settings, ids, take));
      r.Resolved? ==>
      r.value.value == (if fetched.body.value.value.Some? && |fetched.body.value.value.value| > 0 then fetched.body.value.value.value else [])
    ensures var fetched := at(BuildsUrl(settings, ids, take));
      r.Rejected? ==> r.reason == Get(fetched, (e: Envelope<seq<Build>>) => e.value).reason
  {
    NormaliseBuilds(GetMany(at(BuildsUrl(settings, ids, take))))
  }

  /** `getBuild(buildId)`, asked of the server at `BuildUrl`: the body itself, when the
      server answered ok with JSON. */
  function GetBuild(settings: ClientSettings, buildId: int, at: string -> Fetched<Build>): (r: Outcome<Build>)
    ensures var fetched := at(BuildUrl(settings, buildId));
      r.Resolved? <==> fetched.Responded? && IsOk(fetched.status) && fetched.body.Some?
    ensures var fetched := at(BuildUrl(settings, buildId));
      r.Resolved? ==> r.value == HttpResponse(fetched.status, fetched.body.value)
    ensures var fetched := at(BuildUrl(settings, buildId));
      r.Rejected? ==> r.reason == Get(fetched, (b: Build) => b).reason
  {
    GetSingle(at(BuildUrl(settings, buildId)))
  }

  /** `getDefinitions()`, asked of the server at `DefinitionsUrl`: the body's `value`
      list, left absent when the body has none. */
  function GetDefinitions(settings: ClientSettings, at: string -> Fetched<Envelope<seq<BuildDefinition>>>)
    : (r: Outcome<Option<seq<BuildDefinition>>>)
    ensures var fetched := at(DefinitionsUrl(settings));
      r.Resolved? <==> fetched.Responded? && IsOk(fetched.status) && fetched.body.Some?
    ensures var fetched := at(DefinitionsUrl(settings));
      r.Resolved? ==> r.value == HttpResponse(fetched.status, fetched.body.value.value)
    ensures var fetched := at(DefinitionsUrl(settings));
      r.Rejected? ==> r.reason == Get(fetched, (e: Envelope<seq<BuildDefinition>>) => e.value).reason
  {
    GetMany(at(DefinitionsUrl(settings)))
  }

  // ---------------------------------------------------------------------------
  // getLog

  /** The sections' lines one after the other, in section order. */
  function Flatten(sections: seq<seq<string>>): (r: seq<string>)
    decreases |sections|
  {
    if |sections| == 0 then [] else sections[0] + Flatten(sections[1..])
  }

  lemma {:induction false} FlattenAppend(a: seq<seq<string>>, b: seq<seq<string>>)
    ensures Flatten(a + b) == Flatten(a) + Flatten(b)
    decreases |a|
  {
    if |a| > 0 {
      assert (a + b)[1..] == a[1..] + b;
      FlattenAppend(a[1..], b);
    } else {
      assert a + b == b;
    }
  }

  /** The flattened log of one more section is the log so far followed by that section. */
  lemma FlattenSnoc(a: seq<seq<string>>, s: seq<string>)
    ensures Flatten(a + [s]) == Flatten(a) + s
  {
    FlattenAppend(a, [s]);
    assert Flatten([s]) == s + Flatten([s][1..]);
    assert [s][1..] == [];
  }

  function SumLengths(sections: seq<seq<string>>): nat
    decreases |sections|
  {
    if |sections| == 0 then 0 else |sections[0]| + SumLengths(sections[1..])
  }

  /** No line is lost or invented: the log has as many lines as the sections together. */
  lemma {:induction false} FlattenLength(sections: seq<seq<string>>)
    ensures |Flatten(sections)| == SumLengths(sections)
    decreases |sections|
  {
    if |sections| > 0 {
      FlattenLength(sections[1..]);
    }
  }

  /** What the section requests settle to, in container order. */
  function SectionOutcomes(settings: ClientSettings, buildId: int, containers: seq<BuildLogContainer>,
                           sectionAt: string -> Fetched<Envelope<seq<string>>>): (r: seq<Outcome<Option<seq<string>>>>)
    ensures |r| == |containers|
    ensures forall i :: 0 <= i < |containers| ==> r[i] == GetMany(sectionAt(LogSectionUrl(settings, buildId, containers[i].id)))
    decreases |containers|
  {
    if |containers| == 0 then []
    else [GetMany(sectionAt(LogSectionUrl(settings, buildId, containers[0].id)))]
         + SectionOutcomes(settings, buildId, containers[1..], sectionAt)
  }

  /** Joins the section outcomes the way the completion of `getLog` does: the first
      rejection wins, a section without `value` faults when it is iterated, and
      otherwise the sections' line lists. */
  function CollectSections(outcomes: seq<Outcome<Option<seq<string>>>>): (r: Settled<seq<seq<string>>, Rejection>)
    ensures r.Resolved? ==> (|r.value| == |outcomes|
      && forall i :: 0 <= i < |outcomes| ==> outcomes[i].Resolved? && outcomes[i].value.value == Some(r.value[i]))
    ensures r.Resolved? <==> forall i :: 0 <= i < |outcomes| ==> outcomes[i].Resolved? && outcomes[i].value.value.Some?
    ensures FirstRejection(outcomes).Some? ==> r == Rejected(FirstRejection(outcomes).value)
    decreases |outcomes|
  {
    if |outcomes| == 0 then Resolved([])
    else
      match FirstRejection(outcomes)
      case Some(e) => Rejected(e)
      case None =>
        if outcomes[0].value.value.None? then Rejected(Fault("logSection.value is not iterable"))
        else
          match CollectSections(outcomes[1..])
          case Rejected(e) => Rejected(e)
          case Resolved(rest) => Resolved([outcomes[0].value.value.value] + rest)
  }

  /** The reason of the first rejected outcome, the one `Promise.all` reports here. */
  function FirstRejection<T>(outcomes: seq<Outcome<T>>): (r: Option<Rejection>)
    ensures r.None? <==> forall i :: 0 <= i < |outcomes| ==> outcomes[i].Resolved?
    ensures r.Some? ==>
              exists i :: 0 <= i < |outcomes| && outcomes[i] == Rejected(r.value) && forall j :: 0 <= j < i ==> outcomes[j].Resolved?
    decreases |outcomes|
  {
    if |outcomes| == 0 then None
    else if outcomes[0].Rejected? then Some(outcomes[0].reason)
    else
      var r := FirstRejection(outcomes[1..]);
      assert r.Some? ==>
               exists i :: 1 <= i < |outcomes| && outcomes[i] == Rejected(r.value) && forall j :: 0 <= j < i ==> outcomes[j].Resolved? by {
        if r.Some? {
          var k :| 0 <= k < |outcomes[1..]| && outcomes[1..][k] == Rejected(r.value)
            && forall j :: 0 <= j < k ==> outcomes[1..][j].Resolved?;
          assert outcomes[k + 1] == Rejected(r.value);
        }
      }
      r
  }

  /** The settled result of `getLog(build)`: the list of log containers, then one
      request per container, then the lines of all sections in container order under
      status 200 and the build's id. A missing container list faults on `map`. */
  function LogOf(settings: ClientSettings, build: Build, containersAt: string -> Fetched<Envelope<seq<BuildLogContainer>>>,
                 sectionAt: string -> Fetched<Envelope<seq<string>>>): (r: Outcome<BuildLog>)
  {
    match GetMany(containersAt(LogsUrl(settings, build.id)))
    case Rejected(e) => Rejected(e)
    case Resolved(HttpResponse(_, containers)) =>
      if containers.None? then Rejected(Fault("result.value is undefined"))
      else
        match CollectSections(SectionOutcomes(settings, build.id, containers.value, sectionAt))
        case Rejected(e) => Rejected(e)
        case Resolved(sections) => Resolved(HttpResponse(200, BuildLog(build.id, Flatten(sections))))
  }

  /** A resolved log carries status 200 and the build's id, and its messages are the
      lines of the section requests, one section per container, in container order,
      nothing lost. */
  lemma LogOfContents(settings: ClientSettings, build: Build, containersAt: string -> Fetched<Envelope<seq<BuildLogContainer>>>,
                      sectionAt: string -> Fetched<Envelope<seq<string>>>)
    requires LogOf(settings, build, containersAt, sectionAt).Resolved?
    ensures GetMany(containersAt(LogsUrl(settings, build.id))).Resolved? && GetMany(containersAt(LogsUrl(settings, build.id))).value.value.Some?
    ensures var r := LogOf(settings, build, containersAt, sectionAt).value;
      var containers := GetMany(containersAt(LogsUrl(settings, build.id))).value.value.value;
      && r.statusCode == 200 && r.value.buildId == build.id
      && exists sections: seq<seq<string>> ::
           && |sections| == |containers|
           && r.value.messages == Flatten(sections)
           && |r.value.messages| == SumLengths(sections)
           && (forall i :: 0 <= i < |containers| ==>
                 GetMany(sectionAt(LogSectionUrl(settings, build.id, containers[i].id))).Resolved?
                 && GetMany(sectionAt(LogSectionUrl(settings, build.id, containers[i].id))).value.value == Some(sections[i]))
  {
    var containers := GetMany(containersAt(LogsUrl(settings, build.id))).value.value.value;
    var outcomes := SectionOutcomes(settings, build.id, containers, sectionAt);
    var sections := CollectSections(outcomes).value;
    FlattenLength(sections);
    assert forall i :: 0 <= i < |containers| ==> outcomes[i].Resolved? && outcomes[i].value.value == Some(sections[i]);
  }

  /** When the settled log resolves: exactly when the container list resolved with a
      list and every section request resolved with lines. Otherwise a rejected
      container list, or the first rejected section in container order, is the
      reason. */
  lemma LogOfResolves(settings: ClientSettings, build: Build, containersAt: string -> Fetched<Envelope<seq<BuildLogContainer>>>,
                      sectionAt: string -> Fetched<Envelope<seq<string>>>)
    ensures var listed := GetMany(containersAt(LogsUrl(settings, build.id)));
      LogOf(settings, build, containersAt, sectionAt).Resolved? <==>
        && listed.Resolved? && listed.value.value.Some?
        && forall i :: 0 <= i < |listed.value.value.value| ==>
             GetMany(sectionAt(LogSectionUrl(settings, build.id, listed.value.value.value[i].id))).Resolved?
             && GetMany(sectionAt(LogSectionUrl(settings, build.id, listed.value.value.value[i].id))).value.value.Some?
    ensures var listed := GetMany(containersAt(LogsUrl(settings, build.id)));
      listed.Rejected? ==> LogOf(settings, build, containersAt, sectionAt) == Rejected(listed.reason)
    ensures var listed := GetMany(containersAt(LogsUrl(settings, build.id)));
      listed.Resolved? && listed.value.value.Some? ==>
        var first := FirstRejection(SectionOutcomes(settings, build.id, listed.value.value.value, sectionAt));
        first.Some? ==> LogOf(settings, build, containersAt, sectionAt) == Rejected(first.value)
  {
  }

  /** `getLog(build)`, completion step: the section requests are made one after the
      other in container order, and the sections' lines are pushed, in order, onto
      one list. */
  method GetLog(settings: ClientSettings, build: Build, containersAt: string -> Fetched<Envelope<seq<BuildLogContainer>>>,
                sectionAt: string -> Fetched<Envelope<seq<string>>>) returns (r: Outcome<BuildLog>)
    ensures r == LogOf(settings, build, containersAt, sectionAt)
  {
    var listed := GetMany(containersAt(LogsUrl(settings, build.id)));
    if listed.Rejected? {
      return Rejected(listed.reason);
    }
    if listed.value.value.None? {
      return Rejected(Fault("result.value is undefined"));
    }
    var containers := listed.value.value.value;
    var outcomes := SectionOutcomes(settings, build.id, containers, sectionAt);
    var collected := CollectSections(outcomes);
    if collected.Rejected? {
      return Rejected(collected.reason);
    }
    var flattened := FlattenSections(collected.value);
    return Resolved(HttpResponse(200, BuildLog(build.id, flattened)));
  }

  /** The nested loops of `getLog`: every line of every section pushed, in order, onto
      one list. */
  method FlattenSections(logs: seq<seq<string>>) returns (flattened: seq<string>)
    ensures flattened == Flatten(logs)
  {
    flattened := [];
    for k := 0 to |logs|
      invariant flattened == Flatten(logs[..k])
    {
      var section := logs[k];
      var before := flattened;
      for m := 0 to |section|
        invariant flattened == before + section[..m]
      {
        flattened := flattened + [section[m]];
      }
      assert section[..|section|] == section;
      assert logs[..k + 1] == logs[..k] + [section];
      FlattenSnoc(logs[..k], section);
    }
    assert logs[..|logs|] == logs;
  }

  // ---------------------------------------------------------------------------
  // post and queueBuild

  /** The message of the first validation entry whose result is not "ok". */
  function FirstFailure(results: seq<ValidationResult>): (r: Option<string>)
    ensures r.None? <==> forall i :: 0 <= i < |results| ==> results[i].result == "ok"
    ensures r.Some? ==>
              exists i :: 0 <= i < |results| && results[i].result != "ok" && r.value == results[i].message && forall j :: 0 <= j < i ==> results[j].result == "ok"
    decreases |results|
  {
    if |results| == 0 then None
    else if results[0].result != "ok" then Some(results[0].message)
    else
      var r := FirstFailure(results[1..]);
      assert r.Some? ==>
               exists i :: 1 <= i < |results| && results[i].result != "ok" && r.value == results[i].message && forall j :: 0 <= j < i ==> results[j].result == "ok" by {
        if r.Some? {
          var k :| 0 <= k < |results[1..]| && results[1..][k].result != "ok" && r.value == results[1..][k].message
            && forall j :: 0 <= j < k ==> results[1..][j].result == "ok";
          assert results[k + 1] == results[1..][k];
        }
      }
      r
  }

  /** `post(url, body)`: 401 rejects as unauthorized before the body is read; a body
      that is not JSON rejects with node-fetch's error; a status outside 200..299
      rejects with the first failing validation message when the body lists
      validation results, and with `(0, Unknown, "Unknown error")` when it does not;
      an ok status resolves with the body. A validation list with no failing entry
      makes `errors[0].message` read a property of `undefined`: the model faults. */
  function Post<T>(fetched: Fetched<PostBody<T>>): (r: Outcome<T>)
    ensures fetched.Unreachable? ==> r == Rejected(FetchError("system", Some(fetched.code)))
    ensures fetched.Responded? && fetched.status == 401 ==> r == Rejected(HttpError(UnauthorizedError))
    ensures fetched.Responded? && fetched.status != 401 && fetched.body.None? ==> r == Rejected(FetchError("invalid-json", None))
    ensures r.Resolved? <==> fetched.Responded? && IsOk(fetched.status) && fetched.body.Some?
    ensures r.Resolved? ==> r.value == HttpResponse(fetched.status, fetched.body.value.payload)
    ensures fetched.Responded? && fetched.status != 401 && !IsOk(fetched.status) && fetched.body.Some? ==>
      if IsVstsErrorResponse(fetched.body.value) then
        (r.Rejected? && r.reason.HttpError? <==> FirstFailure(fetched.body.value.validationResults.value).Some?)
        && (r.Rejected? && r.reason.HttpError? ==>
              r.reason.error == HttpResponseError(fetched.status, Vsts, FirstFailure(fetched.body.value.validationResults.value).value))
      else r == Rejected(HttpError(HttpResponseError(0, Unknown, "Unknown error")))
  {
    match fetched
    case Unreachable(code) => Rejected(FetchError("system", Some(code)))
    case Responded(status, body) =>
      if status == 401 then Rejected(HttpError(UnauthorizedError))
      else if body.None? then Rejected(FetchError("invalid-json", None))
      else if !IsOk(status) && IsVstsErrorResponse(body.value) then
        match FirstFailure(body.value.validationResults.value)
        case None => Rejected(Fault("errors[0] is undefined"))
        case Some(message) => Rejected(HttpError(HttpResponseError(status, Vsts, message)))
      else if !IsOk(status) then Rejected(HttpError(HttpResponseError(0, Unknown, "Unknown error")))
      else Resolved(HttpResponse(status, body.value.payload))
  }

  /** The JSON object `queueBuild` sends. */
  datatype QueueBuildBody = QueueBuildBody(definitionId: int, sourceBranch: Option<string>)

  /** The body of `queueBuild(definitionId, sourceBranch)`: always the definition id, and
      the branch exactly when it is non-empty. */
  function MakeQueueBuildBody(definitionId: int, sourceBranch: Option<string>): (r: QueueBuildBody)
    ensures r.definitionId == definitionId
    ensures r.sourceBranch.Some? <==> Text.IsTruthy(sourceBranch)
    ensures r.sourceBranch.Some? ==> r.sourceBranch == sourceBranch
  {
    var body := QueueBuildBody(definitionId, None);
    if Text.IsTruthy(sourceBranch) then body.(sourceBranch := sourceBranch) else body
  }

  /** `queueBuild(definitionId, sourceBranch)`: the body `MakeQueueBuildBody` builds is
      posted to `QueueUrl`, and the answer settles to the queued build when the POST
      was accepted, the unauthorized error on 401. */
  function QueueBuild(settings: ClientSettings, definitionId: int, sourceBranch: Option<string>,
                      send: (string, QueueBuildBody) -> Fetched<PostBody<QueueBuildResult>>): (r: Outcome<QueueBuildResult>)
    ensures var fetched := send(QueueUrl(settings), MakeQueueBuildBody(definitionId, sourceBranch));
      r.Resolved? <==> fetched.Responded? && IsOk(fetched.status) && fetched.body.Some?
    ensures var fetched := send(QueueUrl(settings), MakeQueueBuildBody(definitionId, sourceBranch));
      r.Resolved? ==> r.value.value == fetched.body.value.payload
    ensures var fetched := send(QueueUrl(settings), MakeQueueBuildBody(definitionId, sourceBranch));
      fetched.Responded? && fetched.status == 401 ==> r == Rejected(HttpError(UnauthorizedError))
  {
    Post(send(QueueUrl(settings), MakeQueueBuildBody(definitionId, sourceBranch)))
  }
}
