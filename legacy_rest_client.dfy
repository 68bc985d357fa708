/** `VstsBuildRestClientImpl` of src/vstsbuildrestclient.ts: the earlier revision's
    REST client, built on node-rest-client. Only status 200 counts as success, and a
    body that does not parse becomes `null` instead of an error. */
module LegacyRestClient {
  import opened Wrappers
  import Text

  datatype Build = Build(result: Option<string>, reason: string, startTime: string)

  datatype BuildDefinition = BuildDefinition(id: int, name: string, revision: int)

  datatype HttpResponse<T> = HttpResponse(statusCode: int, value: T)

  /** Why a request rejects: a status other than 200 (with the message `get` builds), or
      the transport's own error event. */
  datatype Rejection = BadStatus(message: string) | Transport(error: string)

  datatype ClientSettings = ClientSettings(account: string, username: string, password: string, project: string)

  /** What node-rest-client hands back for one request: the transport's error event, or
      the status code with `JSON.parse(data).value`, absent (`null` or `undefined`) when
      the data does not parse or has no `value`. */
  datatype Reply<T> = TransportError(error: string) | Replied(statusCode: int, value: Option<T>)

  type Outcome<T> = Settled<HttpResponse<Option<T>>, Rejection>

  /** `get(url)`: only status 200 resolves, carrying the parsed `value` (or `null`). */
  function Get<T>(reply: Reply<T>): (r: Outcome<T>)
    ensures r.Resolved? <==> reply.Replied? && reply.statusCode == 200
    ensures r.Resolved? ==> r.value == HttpResponse(200, reply.value)
    ensures reply.Replied? && reply.statusCode != 200 ==>
      r == Rejected(BadStatus("Status code indicated non-OK result " + Text.IntToDecimal(reply.statusCode)))
    ensures reply.TransportError? ==> r == Rejected(Transport(reply.error))
  {
    match reply
    case TransportError(error) => Rejected(Transport(error))
    case Replied(status, value) =>
      if status != 200 then Rejected(BadStatus("Status code indicated non-OK result " + Text.IntToDecimal(status)))
      else Resolved(HttpResponse(status, value))
  }

  /** The rejection message names the status, which reads back from it. */
  lemma BadStatusNamesStatus(status: int)
    ensures var m := "Status code indicated non-OK result " + Text.IntToDecimal(status);
      Text.ParseInt(m[|"Status code indicated non-OK result "|..]) == Some(status)
  {
    var m := "Status code indicated non-OK result " + Text.IntToDecimal(status);
    assert m[|"Status code indicated non-OK result "|..] == Text.IntToDecimal(status);
    Text.IntToDecimalRoundTrip(status);
  }

  const DefaultTake := 5

  /** The query of `getBuilds(definition, take)`: one definition, and `take` builds,
      5 when absent. */
  function BuildsUrl(settings: ClientSettings, definition: BuildDefinition, take: Option<int>): string {
    "https://" + settings.account + ".visualstudio.com/DefaultCollection/" + settings.project
    + "/_apis/build/builds?definitions=" + Text.IntToDecimal(definition.id)
    + "&$top=" + Text.IntToDecimal(take.GetOr(DefaultTake)) + "&api-version=2.0"
  }

  /** The definition and take of a builds query read back from between its markers. */
  lemma BuildsUrlParameters(settings: ClientSettings, definition: BuildDefinition, take: Option<int>)
    ensures var head := "https://" + settings.account + ".visualstudio.com/DefaultCollection/" + settings.project
                        + "/_apis/build/builds?definitions=";
      var id := Text.IntToDecimal(definition.id);
      var url := BuildsUrl(settings, definition, take);
      && url[..|head|] == head
      && Text.ParseInt(url[|head|..|head| + |id|]) == Some(definition.id)
      && url[|head| + |id|..|head| + |id| + 6] == "&$top="
      && Text.ParseInt(url[|head| + |id| + 6..|url| - 16]) == Some(if take.Some? then take.value else 5)
  {
    var head := "https://" + settings.account + ".visualstudio.com/DefaultCollection/" + settings.project
                + "/_apis/build/builds?definitions=";
    var id := Text.IntToDecimal(definition.id);
    var t := Text.IntToDecimal(take.GetOr(DefaultTake));
    var url := BuildsUrl(settings, definition, take);
    assert url == head + id + "&$top=" + t + "&api-version=2.0";
    assert url[|head|..|head| + |id|] == id;
    assert url[|head| + |id| + 6..|url| - 16] == t;
    Text.IntToDecimalRoundTrip(definition.id);
    Text.IntToDecimalRoundTrip(take.GetOr(DefaultTake));
  }

  /** The completion of `getBuilds`: a non-empty list as it is, a missing or empty one
      as `[]`, with the status code kept. */
  function GetBuilds(reply: Reply<seq<Build>>): (r: Settled<HttpResponse<seq<Build>>, Rejection>)
    ensures r.Rejected? <==> Get(reply).Rejected?
    ensures r.Rejected? ==> r.reason == Get(reply).reason
    ensures r.Resolved? ==> r.value.statusCode == Get(reply).value.statusCode
    ensures r.Resolved? ==> r.value.value == (if reply.value.Some? && |reply.value.value| > 0 then reply.value.value else [])
  {
    match Get(reply)
    case Rejected(e) => Rejected(e)
    case Resolved(response) =>
      if response.value.Some? && |response.value.value| > 0 then Resolved(HttpResponse(response.statusCode, response.value.value))
      else Resolved(HttpResponse(response.statusCode, []))
  }

  /** The shared `emptyHttpResponse`. */
  const EmptyHttpResponse: HttpResponse<Option<Build>> := HttpResponse(200, None)

  /** `getLatest(definition)`: `getBuilds(definition, 1)`, then the first build under 200,
      or the shared empty response for an empty list. */
  function GetLatest(reply: Reply<seq<Build>>): (r: Settled<HttpResponse<Option<Build>>, Rejection>)
    ensures r.Rejected? <==> reply.TransportError? || reply.statusCode != 200
    ensures r.Resolved? ==> r.value.statusCode == 200
    ensures r.Resolved? && r.value.value.Some? <==> r.Resolved? && reply.value.Some? && |reply.value.value| > 0
    ensures r.Resolved? && r.value.value.Some? ==> r.value.value.value == reply.value.value[0]
    ensures r.Resolved? && r.value.value.None? ==> r.value == EmptyHttpResponse
  {
    match GetBuilds(reply)
    case Rejected(e) => Rejected(e)
    case Resolved(response) =>
      if |response.value| > 0 then Resolved(HttpResponse(200, Some(response.value[0])))
      else Resolved(EmptyHttpResponse)
  }

  /** `getDefinitions`: the parsed list under 200, `null` when it does not parse. */
  function GetDefinitions(reply: Reply<seq<BuildDefinition>>): (r: Outcome<seq<BuildDefinition>>)
    ensures r.Resolved? <==> reply.Replied? && reply.statusCode == 200
    ensures r.Resolved? ==> r.value == HttpResponse(200, reply.value)
  {
    Get(reply)
  }
}
