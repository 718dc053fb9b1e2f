# TyrAds iframe SDK for Go — a Dafny model

This project models the core of the TyrAds iframe SDK for Go. A publisher
uses the SDK to get a session token for a user and to build the URL of the
TyrAds offerwall iframe. The model covers:

- **configuration** (`config/config.go`): the seven settings, their
  defaults, and the functional options that override them in order;
- **authentication request** (`contract/authentication_request.go`):
  - construction from a user ID, an age, a gender and options;
  - validation: user ID, age, gender, and the e-mail and phone patterns;
  - the key/value payload, which drops unset and empty optional fields;
- **authentication sign** (`contract/authentication_sign.go`): the token
  together with the user's ID, age and gender;
- **HTTP client** (`client/http_client.go`):
  - the request `DoRequest` builds: versioned URL, five headers, `lang`
    query;
  - how the outcome of the exchange becomes a value or an error;
- **SDK facade** (`tyrads_sdk.go`):
  - construction with fallbacks to environment variables;
  - `Authenticate`: validate, send, then narrow the response to
    `data.token`;
  - `IframeUrl`: the iframe URL with the escaped token and optional
    deeplink.

The modules are:

- `Configuration`, `AuthenticationRequests`, `AuthenticationSigns`,
  `HttpClients` and `TyrAdsSdks`: one per Go file;
- `UrlEscape`: Go's `url.QueryEscape` over UTF-8 bytes, its inverse, and a
  reference query-string reader. It states what an escaped URL means;
- `Formats`: the two regular expressions as languages, with checkers
  proved to decide them;
- `Strings`, `Wrappers`, `JsonValue`: small shared helpers.

Values the Go code never mutates after construction are datatypes:
`Config`, `AuthenticationRequest`, `AuthenticationSign`, `HttpClient` and
`TyrAdsSdk`. The Go loops are methods proved against specification
functions:

- the option loops of `NewConfig` and `NewAuthenticationRequest`;
- the payload loop of `GetParsedAuthenticationRequestData`.

The network is a `Network` object. It records every request sent, so
"exactly one request" and "no request" are stated on its `sent` field.

## Model

| member | source | states |
|---|---|---|
| Configuration.Apply | config/config.go:25-27 | One option sets the field it names to its value; every other field keeps its value |
| Configuration.UnnamedFieldKept | config/config.go:15-30 | A setting that no option names keeps its value through the option loop (its default, in `NewConfig`) |
| Configuration.LastWriteWins | config/config.go:25-27 | Options run in order, so a setting ends with the value of the last option that names it |
| Configuration.NewConfig | config/config.go:15-30 | The loop yields the defaults with each option applied in order; with no options, exactly the five defaults and the given key and secret |
| AuthenticationSigns.NewAuthenticationSign | contract/authentication_sign.go:12-19 | The sign carries the given token, user ID, age and gender unchanged, with no check on any of them |
| AuthenticationRequests.WithText | contract/authentication_request.go:14-30 | Assigning one optional string field changes that field only |
| AuthenticationRequests.Apply | contract/authentication_request.go:33 | One option sets its field; every other field of the request keeps its value |
| AuthenticationRequests.UnnamedFieldKept | contract/authentication_request.go:36-48 | A field no option names keeps its constructor value (nil for an optional field) |
| AuthenticationRequests.LastWriteWins | contract/authentication_request.go:43-45 | A field ends with the value of the last option that names it |
| AuthenticationRequests.NewAuthenticationRequest | contract/authentication_request.go:36-48 | The loop yields the three given values with each option applied in order; with no options, every optional field is nil |
| AuthenticationRequests.ValidateAuthenticationRequest | contract/authentication_request.go:52-73 | Passes exactly when the user ID is non-empty, the age is non-negative, the gender is 1 or 2, a given e-mail matches its pattern and a given phone number matches its pattern. Otherwise it fails with the exact message of the first rule broken, in that order |
| AuthenticationRequests.ValidationExamples | contract/authentication_request.go:53-61 | Concrete verdicts: user123/25/1 passes; an empty ID, age -1, gender 3 and gender 0 each fail with their message |
| AuthenticationRequests.WireNameDistinct | contract/authentication_request.go:104-127 | The seventeen optional JSON keys are pairwise distinct and none is a required key, so no field can overwrite another |
| AuthenticationRequests.FillRequired | contract/authentication_request.go:104-108 | The three required keys and their values survive every step of the optional-field loop |
| AuthenticationRequests.FillOptional | contract/authentication_request.go:128-139 | After visiting some optional fields, a field's key is present exactly when that field was visited and is set: a non-empty string, or any boolean. The key then holds that value |
| AuthenticationRequests.FillKeys | contract/authentication_request.go:103-139 | The loop adds no key other than the required ones and those of visited fields |
| AuthenticationRequests.PayloadText | contract/authentication_request.go:128-133 | An optional string field's key is in the payload exactly when the field is set and non-empty, and then holds its text |
| AuthenticationRequests.PayloadContents | contract/authentication_request.go:103-141 | The payload holds `age`, `gender` and `publisherUserId` with the request's values. It holds each optional string key exactly when that field is set and non-empty, with its text. It holds `incentivized` exactly when that flag is set, even to false. It holds no other key |
| AuthenticationRequests.FillNothingSent | contract/authentication_request.go:128-139 | When none of the visited fields is sent, the loop leaves the required map unchanged |
| AuthenticationRequests.PayloadExample | contract/authentication_request.go:103-141 | A request for user123, age 25, gender 1 with no optional field is sent as exactly `{age: 25, gender: 1, publisherUserId: "user123"}` |
| AuthenticationRequests.GetParsedAuthenticationRequestData | contract/authentication_request.go:103-141 | The loop over the optional fields returns exactly `Payload(req)` |
| Formats.IsEmailSound | contract/authentication_request.go:62-67 | Every text the e-mail checker accepts is in the language of `^[^\s@]+@[^\s@]+\.[^\s@]+$` |
| Formats.IsEmailComplete | contract/authentication_request.go:62-67 | Every text in that language is accepted by the checker |
| Formats.IsEmailIffPattern | contract/authentication_request.go:62-67 | The e-mail checker accepts a text if and only if the pattern matches it |
| Formats.IsPhone | contract/authentication_request.go:68-73 | The phone checker accepts a text if and only if `^\+?[0-9\- ]{7,20}$` matches it |
| Formats.ValidEmailExample | contract/authentication_request.go:63-64 | `test@example.com` matches the e-mail pattern |
| Formats.InvalidEmailExample | contract/authentication_request.go:63-64 | `invalid-email` does not match the e-mail pattern |
| Formats.ValidPhoneExample | contract/authentication_request.go:69-70 | `+1234567890` matches the phone pattern |
| Formats.InvalidPhoneExample | contract/authentication_request.go:69-70 | `invalid-phone` does not match the phone pattern |
| UrlEscape.Utf8 | tyrads_sdk.go:118 | A character is one to four bytes: an ASCII character is its own code, and every other character is bytes of 0x80 or more |
| UrlEscape.EscapeBytes | tyrads_sdk.go:118 | Escaped text is made only of unreserved characters, `+` and `%` escapes |
| UrlEscape.QueryEscapeIsDelimiterFree | tyrads_sdk.go:118-121 | An escaped value never contains `&`, `=`, `?`, `#` or a space, so it cannot end its parameter early |
| UrlEscape.QueryEscapeUnreserved | tyrads_sdk.go:118 | Text made only of unreserved characters is its own escape |
| UrlEscape.UnescapePlain | client/http_client.go:63-65 | Text without `%` or `+` unescapes to its own UTF-8 bytes |
| UrlEscape.UnescapeEscapeBytes | tyrads_sdk.go:118-121 | Unescaping escaped bytes gives those bytes back |
| UrlEscape.QueryEscapeRoundTrip | tyrads_sdk.go:118-121 | `QueryUnescape(QueryEscape(s))` gives back the UTF-8 bytes of `s` exactly |
| UrlEscape.DecodeQuerySingle | client/http_client.go:63-65 | A query without `&` is read as one parameter |
| UrlEscape.DecodeQueryFirst | tyrads_sdk.go:118-121 | A parameter followed by `&` is read first, ahead of whatever follows |
| UrlEscape.EscapedParam | tyrads_sdk.go:118-121 | `key=QueryEscape(value)` has no `&`, and it reads back as the key and the exact bytes of the value |
| UrlEscape.PlainParam | client/http_client.go:63-65 | With a key that needs no escaping, `key=QueryEscape(value)` reads back as that key and value, and it holds no `&` |
| UrlEscape.OneParamQuery | client/http_client.go:63-65 | A single `key=escaped value` query reads back as that one pair |
| UrlEscape.TwoParamQuery | tyrads_sdk.go:118-121 | Two such parameters joined by `&` read back as those two pairs, in order |
| HttpClients.Headers | client/http_client.go:58-62 | Exactly the five header names in the canonical form `Header.Set` stores (`Content-Type`, `X-Api-Key`, `X-Api-Secret`, `X-Sdk-Version`, `X-Sdk-Platform`), with `application/json` and the configured key, secret, version and platform |
| HttpClients.LangQuery | client/http_client.go:63-65 | The encoded query reads back as exactly one pair, `lang` and the language |
| HttpClients.BuildRequest | client/http_client.go:41-65 | The request carries the given method and body. Its URL is the base, `/`, the version and the path. Its headers are `Headers(cfg)`. Its query reads back as exactly one pair, `lang` and the configured language |
| HttpClients.LangQueryDecodes | client/http_client.go:63-65 | The encoded `lang` query reads back as `lang` and the language, whatever characters the language holds |
| HttpClients.ClassifyResponse | client/http_client.go:67-91 | The result is a value exactly when a 2xx response parses, and then it is the parsed value unchanged. Each failure stage has its message: no response, unreadable body, and parse failure carry their own prefixes. A non-2xx response gives the server's message, or `Unknown error` when that is empty |
| HttpClients.DoRequest | client/http_client.go:41-92 | Exactly one request, the built one, goes to the network, and the result is the classification of its answer |
| TyrAdsSdks.NewTyrAdsSdk | tyrads_sdk.go:32-49 | An empty key or secret is replaced by `TYRADS_API_KEY` or `TYRADS_API_SECRET` from the environment, and an empty language by `en`. The other settings keep their defaults, and the HTTP client shares the configuration |
| TyrAdsSdks.ExtractToken | tyrads_sdk.go:73-86 | A token comes back exactly when the response is an object whose `data` is an object with a string `token`. The token is then the string at `data.token`. Otherwise the error names the first level whose shape is wrong |
| TyrAdsSdks.ExtractTokenOfEnvelope | tyrads_sdk.go:73-86 | Any response of the shape `{"data": {"token": t, …}, …}` yields `t`, whatever else it holds |
| TyrAdsSdks.AuthenticationResult | tyrads_sdk.go:67-88 | A transport error becomes `request error: ` followed by the error. A sign comes back exactly when a token is extracted, and it holds that token and the request's own ID, age and gender |
| TyrAdsSdks.Authenticate | tyrads_sdk.go:62-89 | An invalid request fails with `validation error: ` followed by the validation message, and nothing is sent. A valid one sends exactly one POST to `/auth` carrying its payload, and the result is `AuthenticationResult` of the classified answer. A sign is only issued with a non-empty ID, a non-negative age and gender 1 or 2 |
| TyrAdsSdks.IframeUrl | tyrads_sdk.go:102-117 | A URL is built exactly when the argument is a token or a sign and the deeplink is absent or non-empty. A bad argument fails with its own message, and this check comes before the deeplink check |
| TyrAdsSdks.TokenQueryReadsBack | tyrads_sdk.go:118 | Without a deeplink, the query reads back as the single pair `token` and the exact token |
| TyrAdsSdks.DeeplinkQueryReadsBack | tyrads_sdk.go:118-121 | With a deeplink, the query reads back as `token` and the exact token, then `to` and the exact deeplink |
| TyrAdsSdks.IframeQueryReadsBack | tyrads_sdk.go:118-121 | The query reads back as `token` and the exact token, followed by `to` and the exact deeplink when one is given |
| TyrAdsSdks.IframeUrlReadsBack | tyrads_sdk.go:102-124 | A built URL is the iframe base, `?`, and that query. No token or deeplink text can add, end or reorder parameters |
| TyrAdsSdks.IframeQueryVerbatim | tyrads_sdk.go:118-121 | A token and a deeplink made of unreserved characters appear in the query verbatim |
| TyrAdsSdks.IframeUrlExample | tyrads_sdk.go:102-123 | With the default iframe base, the token `test-token` and no deeplink give exactly `https://sdk.tyrads.com?token=test-token` |
| TyrAdsSdks.IframeUrlVerbatim | tyrads_sdk.go:118-123 | Such a token and deeplink give URLs like `https://sdk.tyrads.com?token=test-token&to=offers` |

## Left out

- The socket exchange and `io.ReadAll` are the `respond` function of a `Network`. Its result says whether a response came, whether its body could be read, and the status.
- The JSON codec (`json.Marshal`, `json.Unmarshal`) is not modelled. A request body is a `Json` value, and a response body arrives already decoded both ways: as a value or a parse error, and as the `message` of the `HttpError` envelope.
- The failure of `json.Marshal` or `http.NewRequest`, each returned unwrapped by `DoRequest`, is not modelled. The payload is a map of strings, integers and booleans, so marshalling it cannot fail. `NewRequest` fails only on a malformed method or URL, which the configuration would have to supply.
- JSON numbers are unbounded integers. Go decodes numbers in a response to `float64`, but only the `token` string is read from a response.
- `os.Getenv` is the `getenv` parameter of `NewTyrAdsSdk`. It yields "" for an unset variable, as Go does.
- Go's general header-name canonicalisation (`textproto.CanonicalMIMEHeaderKey`) is not modelled as a function. `Headers` is keyed directly by the canonical forms Go stores and sends: `Content-Type`, `X-Api-Key`, `X-Api-Secret`, `X-Sdk-Version` and `X-Sdk-Platform`.
- A base URL of the API that already carries a query or a fragment is not modelled. The model builds the URL text as base, `/`, version and path, and the query from `lang` alone.
- `ValidateAuthenticationRequest`: the `%T` checks at contract/authentication_request.go:74-97 are not modelled. The fields have fixed types, so those checks can never fail.
- Option closures are modelled as `SetField` / `RequestOption` values, one field each. A closure that assigns several fields is the sequence of its options. A closure with other effects (reading other fields, side effects) is not modelled.
- `IframeUrl`: passing a nil `*AuthenticationSign` makes Go panic. The model's `Sign` always holds a sign. Any other Go type is the single `Other` argument.
- `IframeUrl` appends `?` to the base URL without checking whether that URL already has a query. The model does the same, and the read-back lemmas speak of the text after the first `?` that follows the base.
- The tests in `contract/authentication_request_test.go` use pointer-typed `Age` and `Gender` and a constructor without age and gender. The model follows `contract/authentication_request.go`, where both are plain integers, so a request without a gender (0) fails validation.
- Go's `map` iteration order is not modelled. `GetParsedAuthenticationRequestData` visits the optional fields in their listed order, and the order cannot change the resulting map because the keys are distinct (`WireNameDistinct`).
