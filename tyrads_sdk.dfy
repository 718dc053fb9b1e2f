/** The SDK facade (tyrads_sdk.go): construction with credential fallbacks,
    `Authenticate` as three gates around one request, and the iframe URL
    builder. */
module TyrAdsSdks {
  import opened Wrappers
  import opened JsonValue
  import opened Configuration
  import opened UrlEscape
  import opened AuthenticationSigns
  import opened AuthenticationRequests
  import opened HttpClients

  /** The SDK holds one configuration, shared with its HTTP client. */
  datatype TyrAdsSdk = TyrAdsSdk(config: Config, httpClient: HttpClient)

  const ApiKeyVariable := "TYRADS_API_KEY"
  const ApiSecretVariable := "TYRADS_API_SECRET"

  /** `NewTyrAdsSdk`. `getenv` stands for `os.Getenv`, which yields "" for
      an unset variable. An empty key or secret is looked up in the
      environment, an empty language becomes "en"; everything else is kept
      verbatim and every other setting keeps its default. */
  method NewTyrAdsSdk(apiKey: string, apiSecret: string, lang: string, getenv: string -> string)
    returns (sdk: TyrAdsSdk)
    ensures sdk.httpClient.config == sdk.config
    ensures sdk.config.apiKey == if apiKey == "" then getenv(ApiKeyVariable) else apiKey
    ensures sdk.config.apiSecret == if apiSecret == "" then getenv(ApiSecretVariable) else apiSecret
    ensures sdk.config.language == if lang == "" then "en" else lang
    ensures sdk.config.iFrameBaseUrl == "https://sdk.tyrads.com" && sdk.config.sdkApiBaseUrl == "https://api.tyrads.com"
    ensures sdk.config.sdkApiVersion == "v3.0" && sdk.config.sdkPlatform == "Web"
  {
    var key, secret, language := apiKey, apiSecret, lang;
    if key == "" {
      key := getenv(ApiKeyVariable);
    }
    if secret == "" {
      secret := getenv(ApiSecretVariable);
    }
    if language == "" {
      language := "en";
    }
    var opts := [SetField(Language, language)];
    var cfg := NewConfig(key, secret, opts);
    assert opts[..0] == [];
    sdk := TyrAdsSdk(cfg, HttpClient(cfg));
  }

  // ---------------------------------------------------------------------
  // Authenticate
  // ---------------------------------------------------------------------

  const InvalidResponseFormat := "invalid response format"
  const InvalidDataFormat := "invalid data format"
  const InvalidTokenFormat := "invalid token format"

  /** The third gate: narrow the response to `data.token`, reporting the
      first level whose shape is wrong. */
  function ExtractToken(resp: Json): (r: Result<string>)
    ensures !resp.JObj? ==> r == Failure(InvalidResponseFormat)
    ensures resp.JObj? && !("data" in resp.fields && resp.fields["data"].JObj?) ==> r == Failure(InvalidDataFormat)
    ensures r.Success? <==>
      && resp.JObj? && "data" in resp.fields && resp.fields["data"].JObj?
      && "token" in resp.fields["data"].fields && resp.fields["data"].fields["token"].JStr?
    ensures r.Failure? && resp.JObj? && "data" in resp.fields && resp.fields["data"].JObj? ==> r == Failure(InvalidTokenFormat)
    ensures r.Success? ==> r.value == resp.fields["data"].fields["token"].s
  {
    match resp
    case JObj(respMap) =>
      if "data" in respMap && respMap["data"].JObj? then
        var dataMap := respMap["data"].fields;
        if "token" in dataMap && dataMap["token"].JStr? then Success(dataMap["token"].s)
        else Failure(InvalidTokenFormat)
      else Failure(InvalidDataFormat)
    case _ => Failure(InvalidResponseFormat)
  }

  /** A success envelope `{"data": {"token": t, ...}, ...}` yields `t`,
      whatever else the response and its `data` hold. */
  lemma ExtractTokenOfEnvelope(outer: map<string, Json>, inner: map<string, Json>, token: string)
    ensures ExtractToken(JObj(outer["data" := JObj(inner["token" := JStr(token)])])) == Success(token)
  {
  }

  /** Gates two and three, after validation passed: the transport's error
      is wrapped, the response narrowed, and the sign built from the token
      and the request's own user fields (the server does not echo them). */
  function AuthenticationResult(req: AuthenticationRequest, response: Result<Json>): (r: Result<AuthenticationSign>)
    ensures response.Failure? ==> r == Failure("request error: " + response.error)
    ensures response.Success? && ExtractToken(response.value).Failure? ==> r == Failure(ExtractToken(response.value).error)
    ensures r.Success? <==> response.Success? && ExtractToken(response.value).Success?
    ensures r.Success? ==> r.value.token == ExtractToken(response.value).value
    ensures r.Success? ==> r.value.publisherUserId == req.publisherUserId && r.value.age == req.age && r.value.gender == req.gender
  {
    match response
    case Failure(e) => Failure("request error: " + e)
    case Success(v) =>
      match ExtractToken(v)
      case Failure(e) => Failure(e)
      case Success(token) => Success(NewAuthenticationSign(token, req.publisherUserId, req.age, req.gender))
  }

  /** The one request a valid `req` causes. */
  function AuthRequest(cfg: Config, req: AuthenticationRequest): HttpRequest {
    BuildRequest(cfg, "POST", "/auth", Some(JObj(Payload(req))))
  }

  /** `Authenticate`: an invalid request fails with the validation message
      and sends nothing; a valid one sends exactly one POST to `/auth` with
      the request's payload, and the outcome is `AuthenticationResult`. A
      sign is only ever issued for a request that passed validation. */
  method Authenticate(sdk: TyrAdsSdk, req: AuthenticationRequest, net: Network)
    returns (r: Result<AuthenticationSign>)
    modifies net
    ensures ValidateAuthenticationRequest(req).Fail? ==>
      r == Failure("validation error: " + ValidateAuthenticationRequest(req).error) && net.sent == old(net.sent)
    ensures ValidateAuthenticationRequest(req) == Pass ==>
      && net.sent == old(net.sent) + [AuthRequest(sdk.httpClient.config, req)]
      && r == AuthenticationResult(req, ClassifyResponse(net.respond(AuthRequest(sdk.httpClient.config, req))))
    ensures r.Success? ==> r.value.publisherUserId != "" && r.value.age >= 0 && (r.value.gender == 1 || r.value.gender == 2)
  {
    var verdict := ValidateAuthenticationRequest(req);
    if verdict.Fail? {
      return Failure("validation error: " + verdict.error);
    }
    assert Holds(NonEmptyPublisherUserId, req) && Holds(NonNegativeAge, req) && Holds(KnownGender, req);
    var data := GetParsedAuthenticationRequestData(req);
    var resp := DoRequest(sdk.httpClient, "POST", "/auth", Some(JObj(data)), net);
    ghost var outcome := AuthenticationResult(req, resp);
    if resp.Failure? {
      return Failure("request error: " + resp.error);
    }
    if !resp.value.JObj? {
      assert outcome == Failure(InvalidResponseFormat);
      return Failure(InvalidResponseFormat);
    }
    var respMap := resp.value.fields;
    if !("data" in respMap && respMap["data"].JObj?) {
      assert outcome == Failure(InvalidDataFormat);
      return Failure(InvalidDataFormat);
    }
    var dataMap := respMap["data"].fields;
    if !("token" in dataMap && dataMap["token"].JStr?) {
      assert outcome == Failure(InvalidTokenFormat);
      return Failure(InvalidTokenFormat);
    }
    r := Success(NewAuthenticationSign(dataMap["token"].s, req.publisherUserId, req.age, req.gender));
    assert outcome == r;
  }

  // ---------------------------------------------------------------------
  // IframeUrl
  // ---------------------------------------------------------------------

  /** The first argument of `IframeUrl`: a token string, a sign, or any
      other Go value. */
  datatype TokenArgument = Token(token: string) | Sign(sign: AuthenticationSign) | Other

  const InvalidArgument := "invalid argument: must be an AuthenticationSign or a string token"
  const InvalidDeeplink := "invalid deeplinkTo argument: must be a non-empty string or nil"

  function TokenOf(arg: TokenArgument): string
    requires !arg.Other?
  {
    match arg
    case Token(t) => t
    case Sign(s) => s.token
  }

  /** The two parameters of the iframe URL. */
  const TokenKey := "token"
  const DeeplinkKey := "to"

  /** The query of the iframe URL: the escaped token, then the escaped
      deeplink when there is one. */
  function IframeQuery(token: string, deeplinkTo: Option<string>): string {
    var tokenParam := TokenKey + "=" + QueryEscape(token);
    if deeplinkTo.Some? then tokenParam + "&" + (DeeplinkKey + "=" + QueryEscape(deeplinkTo.value))
    else tokenParam
  }

  /** Without a deeplink the query reads back as the token alone. */
  lemma TokenQueryReadsBack(token: string)
    ensures DecodeQuery(IframeQuery(token, None)) == Some([(Utf8Encode(TokenKey), Utf8Encode(token))])
  {
    IframeKeysArePlain();
    OneParamQuery(TokenKey, token);
  }

  /** With a deeplink it reads back as the token, then the deeplink. */
  lemma DeeplinkQueryReadsBack(token: string, to: string)
    ensures DecodeQuery(IframeQuery(token, Some(to))) ==
      Some([(Utf8Encode(TokenKey), Utf8Encode(token)), (Utf8Encode(DeeplinkKey), Utf8Encode(to))])
  {
    IframeKeysArePlain();
    TwoParamQuery(TokenKey, token, DeeplinkKey, to);
  }

  /** The query reads back as the token, then the deeplink when one is
      given, each exactly. */
  lemma IframeQueryReadsBack(token: string, deeplinkTo: Option<string>)
    ensures deeplinkTo.None? ==>
      DecodeQuery(IframeQuery(token, deeplinkTo)) == Some([(Utf8Encode(TokenKey), Utf8Encode(token))])
    ensures deeplinkTo.Some? ==>
      DecodeQuery(IframeQuery(token, deeplinkTo)) ==
        Some([(Utf8Encode(TokenKey), Utf8Encode(token)), (Utf8Encode(DeeplinkKey), Utf8Encode(deeplinkTo.value))])
  {
    if deeplinkTo.Some? {
      DeeplinkQueryReadsBack(token, deeplinkTo.value);
    } else {
      TokenQueryReadsBack(token);
    }
  }

  /** `IframeUrl`: the argument is checked before the deeplink; a URL is
      built exactly when the argument is a token or a sign and the deeplink
      is absent or non-empty. What the URL says is `IframeUrlReadsBack`. */
  function IframeUrl(cfg: Config, arg: TokenArgument, deeplinkTo: Option<string>): (r: Result<string>)
    ensures arg.Other? ==> r == Failure(InvalidArgument)
    ensures !arg.Other? && deeplinkTo == Some("") ==> r == Failure(InvalidDeeplink)
    ensures r.Success? <==> !arg.Other? && deeplinkTo != Some("")
  {
    match arg
    case Other => Failure(InvalidArgument)
    case _ =>
      var token := TokenOf(arg);
      if deeplinkTo.Some? && deeplinkTo.value == "" then Failure(InvalidDeeplink)
      else
        Success(cfg.iFrameBaseUrl + "?" + IframeQuery(token, deeplinkTo))
  }

  /** The two keys the iframe URL carries need no escaping. */
  lemma IframeKeysArePlain()
    ensures IsPlainKey(TokenKey) && IsPlainKey(DeeplinkKey)
  {
    assert TokenKey == ['t', 'o', 'k', 'e', 'n'] && DeeplinkKey == ['t', 'o'];
  }

  /** A built URL is the iframe base, `?`, and a query that reads back as
      the token, then the deeplink when one was given, each exactly: no
      token or deeplink text can add, end or reorder parameters. */
  lemma IframeUrlReadsBack(cfg: Config, arg: TokenArgument, deeplinkTo: Option<string>)
    requires IframeUrl(cfg, arg, deeplinkTo).Success?
    ensures var u := IframeUrl(cfg, arg, deeplinkTo).value;
      && |u| > |cfg.iFrameBaseUrl|
      && u[..|cfg.iFrameBaseUrl| + 1] == cfg.iFrameBaseUrl + "?"
      && (deeplinkTo.None? ==>
            DecodeQuery(u[|cfg.iFrameBaseUrl| + 1..]) == Some([(Utf8Encode(TokenKey), Utf8Encode(TokenOf(arg)))]))
      && (deeplinkTo.Some? ==>
            DecodeQuery(u[|cfg.iFrameBaseUrl| + 1..]) ==
              Some([(Utf8Encode(TokenKey), Utf8Encode(TokenOf(arg))), (Utf8Encode(DeeplinkKey), Utf8Encode(deeplinkTo.value))]))
  {
    var base, token := cfg.iFrameBaseUrl, TokenOf(arg);
    var u := IframeUrl(cfg, arg, deeplinkTo).value;
    var query := IframeQuery(token, deeplinkTo);
    assert u == base + "?" + query;
    assert u[..|base| + 1] == base + "?";
    assert u[|base| + 1..] == query;
    IframeQueryReadsBack(token, deeplinkTo);
  }

  /** A token and a deeplink made of unreserved characters appear in the
      query verbatim. */
  lemma IframeQueryVerbatim(token: string, deeplinkTo: Option<string>)
    requires forall i :: 0 <= i < |token| ==> IsUnreservedChar(token[i])
    requires deeplinkTo.Some? ==> forall i :: 0 <= i < |deeplinkTo.value| ==> IsUnreservedChar(deeplinkTo.value[i])
    ensures IframeQuery(token, deeplinkTo) == "token=" + token + (if deeplinkTo.Some? then "&to=" + deeplinkTo.value else "")
  {
    assert QueryEscape(token) == token by {
      QueryEscapeUnreserved(token);
    }
    assert TokenKey + "=" == "token=";
    if deeplinkTo.Some? {
      assert QueryEscape(deeplinkTo.value) == deeplinkTo.value by {
        QueryEscapeUnreserved(deeplinkTo.value);
      }
      assert "&" + (DeeplinkKey + "=") == "&to=";
    }
  }

  /** So such a token and deeplink make URLs such as
      `https://sdk.tyrads.com?token=test-token&to=offers`. */
  lemma IframeUrlVerbatim(cfg: Config, arg: TokenArgument, deeplinkTo: Option<string>)
    requires !arg.Other? && deeplinkTo != Some("")
    requires forall i :: 0 <= i < |TokenOf(arg)| ==> IsUnreservedChar(TokenOf(arg)[i])
    requires deeplinkTo.Some? ==> forall i :: 0 <= i < |deeplinkTo.value| ==> IsUnreservedChar(deeplinkTo.value[i])
    ensures IframeUrl(cfg, arg, deeplinkTo) == Success(
      cfg.iFrameBaseUrl + "?" + ("token=" + TokenOf(arg) + (if deeplinkTo.Some? then "&to=" + deeplinkTo.value else "")))
  {
    IframeQueryVerbatim(TokenOf(arg), deeplinkTo);
  }

  /** The URL an SDK with the default iframe base builds for the token
      `test-token` without a deeplink. */
  lemma IframeUrlExample(cfg: Config, token: string)
    requires cfg.iFrameBaseUrl == "https://sdk.tyrads.com" && token == "test-token"
    ensures IframeUrl(cfg, Token(token), None) == Success("https://sdk.tyrads.com?token=test-token")
  {
    var query := "token=" + token + "";
    assert IframeUrl(cfg, Token(token), None) == Success(cfg.iFrameBaseUrl + "?" + query) by {
      assert forall i :: 0 <= i < |token| ==> IsUnreservedChar(token[i]);
      IframeUrlVerbatim(cfg, Token(token), None);
    }
    TestUrlText(token);
  }

  /** The text of that URL, assembled from its parts. */
  lemma TestUrlText(token: string)
    requires token == "test-token"
    ensures "https://sdk.tyrads.com" + "?" + ("token=" + token + "") == "https://sdk.tyrads.com?token=test-token"
  {
    assert "token=" + token + "" == "token=test-token";
  }
}
