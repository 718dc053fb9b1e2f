/** The HTTP transport's decision logic (client/http_client.go): the
    request `DoRequest` sends and how it turns what comes back into a value
    or an error. The socket exchange and the JSON codec are not modelled:
    the exchange is the `respond` function of a `Network`, and the codec's
    two readings of a response body arrive decoded in `DecodedBody`. */
module HttpClients {
  import opened Wrappers
  import opened JsonValue
  import opened Configuration
  import opened UrlEscape

  /** What `http.NewRequest` plus the header and query assignments build. */
  datatype HttpRequest = HttpRequest(
    httpMethod: string,
    url: string,
    rawQuery: string,
    headers: map<string, string>,
    body: Option<Json>)

  /** The client holds the configuration it was built with. */
  datatype HttpClient = HttpClient(config: Config)

  /** A response body as `encoding/json` reads it: into `any`, and into the
      `HttpError` envelope (its `Message`, left empty when the body has
      none or does not parse). */
  datatype DecodedBody = DecodedBody(asValue: Result<Json>, errorMessage: string)

  /** How one exchange ended: no response (`client.Do` failed), a body that
      could not be read, or a status code with its body. */
  datatype TransportOutcome =
    | NoResponse(cause: string)
    | ReadFailed(cause: string)
    | Received(status: int, body: DecodedBody)

  const NoResponsePrefix := "no response received from the server: "
  const ReadFailedPrefix := "failed to read response body: "
  const ParseFailedPrefix := "failed to parse response body: "
  const UnknownError := "Unknown error"

  /** The five headers `DoRequest` sets, each once. `Header.Set` stores a
      name in its canonical form (the first letter and each letter after a
      `-` upper case, the others lower case), so `X-API-Key` is held and
      sent as `X-Api-Key`. */
  function Headers(cfg: Config): (h: map<string, string>)
    ensures h.Keys == {"Content-Type", "X-Api-Key", "X-Api-Secret", "X-Sdk-Version", "X-Sdk-Platform"}
    ensures h["Content-Type"] == "application/json"
    ensures h["X-Api-Key"] == cfg.apiKey && h["X-Api-Secret"] == cfg.apiSecret
    ensures h["X-Sdk-Version"] == cfg.sdkApiVersion && h["X-Sdk-Platform"] == cfg.sdkPlatform
  {
    map[
      "Content-Type" := "application/json",
      "X-Api-Key" := cfg.apiKey,
      "X-Api-Secret" := cfg.apiSecret,
      "X-Sdk-Version" := cfg.sdkApiVersion,
      "X-Sdk-Platform" := cfg.sdkPlatform]
  }

  /** The request for `path`: the versioned URL, the JSON body exactly when
      one is given, the five headers, and a query whose only parameter is
      `lang`, carrying the configured language exactly. */
  function BuildRequest(cfg: Config, httpMethod: string, path: string, body: Option<Json>): (r: HttpRequest)
    ensures r.httpMethod == httpMethod && r.body == body
    ensures r.url == cfg.sdkApiBaseUrl + "/" + cfg.sdkApiVersion + path
    ensures r.headers == Headers(cfg)
    ensures DecodeQuery(r.rawQuery) == Some([(Utf8Encode("lang"), Utf8Encode(cfg.language))])
  {
    HttpRequest(
      httpMethod,
      cfg.sdkApiBaseUrl + "/" + cfg.sdkApiVersion + path,
      LangQuery(cfg.language),
      Headers(cfg),
      body)
  }

  /** `url.Values{"lang": {language}}.Encode()`: one parameter, `lang`,
      whose value is the language exactly. */
  function LangQuery(language: string): (q: string)
    ensures DecodeQuery(q) == Some([(Utf8Encode("lang"), Utf8Encode(language))])
  {
    LangQueryDecodes(language);
    "lang" + "=" + QueryEscape(language)
  }

  /** `url.Values{"lang": {language}}.Encode()` reads back as that one
      parameter. */
  lemma LangQueryDecodes(language: string)
    ensures DecodeQuery("lang" + "=" + QueryEscape(language)) == Some([(Utf8Encode("lang"), Utf8Encode(language))])
  {
    assert IsPlainKey("lang") by {
      assert "lang" == ['l', 'a', 'n', 'g'];
    }
    OneParamQuery("lang", language);
  }

  predicate IsSuccessStatus(status: int) {
    200 <= status < 300
  }

  /** Everything after `client.Do`: a value exactly when the status is 2xx
      and the body parses, and then the parsed value unchanged, whatever its
      kind; otherwise an error whose text tells the stage apart. A non-2xx
      error is the server's message itself, never empty. */
  function ClassifyResponse(outcome: TransportOutcome): (r: Result<Json>)
    ensures r.Success? <==> outcome.Received? && IsSuccessStatus(outcome.status) && outcome.body.asValue.Success?
    ensures r.Success? ==> r.value == outcome.body.asValue.value
    ensures outcome.NoResponse? ==> r == Failure(NoResponsePrefix + outcome.cause)
    ensures outcome.ReadFailed? ==> r == Failure(ReadFailedPrefix + outcome.cause)
    ensures outcome.Received? && !IsSuccessStatus(outcome.status) ==>
      r.Failure? && r.error != "" &&
      (outcome.body.errorMessage != "" ==> r.error == outcome.body.errorMessage) &&
      (outcome.body.errorMessage == "" ==> r.error == UnknownError)
    ensures outcome.Received? && IsSuccessStatus(outcome.status) && outcome.body.asValue.Failure? ==>
      r == Failure(ParseFailedPrefix + outcome.body.asValue.error)
  {
    match outcome
    case NoResponse(cause) => Failure(NoResponsePrefix + cause)
    case ReadFailed(cause) => Failure(ReadFailedPrefix + cause)
    case Received(status, body) =>
      if status < 200 || status >= 300 then
        Failure(if body.errorMessage == "" then UnknownError else body.errorMessage)
      else
        match body.asValue
        case Failure(e) => Failure(ParseFailedPrefix + e)
        case Success(v) => Success(v)
  }

  /** The remote side: `respond` is how it answers each request, `sent`
      every request issued so far. */
  class Network {
    const respond: HttpRequest -> TransportOutcome
    var sent: seq<HttpRequest>

    constructor(respond: HttpRequest -> TransportOutcome)
      ensures this.respond == respond && sent == []
    {
      this.respond := respond;
      sent := [];
    }

    /** One exchange (`client.Do` and reading the body). */
    method Exchange(req: HttpRequest) returns (outcome: TransportOutcome)
      modifies this
      ensures sent == old(sent) + [req]
      ensures outcome == respond(req)
    {
      sent := sent + [req];
      outcome := respond(req);
    }
  }

  /** `DoRequest`: exactly one request goes out, and its outcome is classified. */
  method DoRequest(client: HttpClient, httpMethod: string, path: string, body: Option<Json>, net: Network)
    returns (r: Result<Json>)
    modifies net
    ensures net.sent == old(net.sent) + [BuildRequest(client.config, httpMethod, path, body)]
    ensures r == ClassifyResponse(net.respond(BuildRequest(client.config, httpMethod, path, body)))
  {
    var req := BuildRequest(client.config, httpMethod, path, body);
    var outcome := net.Exchange(req);
    r := ClassifyResponse(outcome);
  }
}
