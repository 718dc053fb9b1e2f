/** The SDK's settings bag (config/config.go): fixed defaults, then the
    caller's options applied in order. Nothing is validated. */
module Configuration {

  datatype Config = Config(
    iFrameBaseUrl: string,
    sdkApiBaseUrl: string,
    sdkApiVersion: string,
    sdkPlatform: string,
    apiKey: string,
    apiSecret: string,
    language: string)

  datatype ConfigField =
    IFrameBaseUrl | SdkApiBaseUrl | SdkApiVersion | SdkPlatform | ApiKey | ApiSecret | Language

  /** A `ConfigOptions` closure that assigns one field. A closure assigning
      several fields is the sequence of their options. */
  datatype ConfigOption = SetField(field: ConfigField, value: string)

  function Get(c: Config, f: ConfigField): string {
    match f
    case IFrameBaseUrl => c.iFrameBaseUrl
    case SdkApiBaseUrl => c.sdkApiBaseUrl
    case SdkApiVersion => c.sdkApiVersion
    case SdkPlatform => c.sdkPlatform
    case ApiKey => c.apiKey
    case ApiSecret => c.apiSecret
    case Language => c.language
  }

  /** Running one option: the named field takes the value and no other
      field changes. */
  function Apply(c: Config, opt: ConfigOption): (r: Config)
    ensures Get(r, opt.field) == opt.value
    ensures forall g :: g != opt.field ==> Get(r, g) == Get(c, g)
  {
    match opt.field
    case IFrameBaseUrl => c.(iFrameBaseUrl := opt.value)
    case SdkApiBaseUrl => c.(sdkApiBaseUrl := opt.value)
    case SdkApiVersion => c.(sdkApiVersion := opt.value)
    case SdkPlatform => c.(sdkPlatform := opt.value)
    case ApiKey => c.(apiKey := opt.value)
    case ApiSecret => c.(apiSecret := opt.value)
    case Language => c.(language := opt.value)
  }

  /** The options run first to last. */
  function ApplyAll(c: Config, opts: seq<ConfigOption>): Config
  {
    if opts == [] then c else Apply(ApplyAll(c, opts[..|opts| - 1]), opts[|opts| - 1])
  }

  /** The configuration before any option runs. */
  function Defaults(apiKey: string, apiSecret: string): Config {
    Config(
      iFrameBaseUrl := "https://sdk.tyrads.com",
      sdkApiBaseUrl := "https://api.tyrads.com",
      sdkApiVersion := "v3.0",
      sdkPlatform := "Web",
      apiKey := apiKey,
      apiSecret := apiSecret,
      language := "en")
  }

  /** A field that no option names keeps its earlier value. */
  lemma {:induction false} UnnamedFieldKept(c: Config, opts: seq<ConfigOption>, f: ConfigField)
    requires forall i :: 0 <= i < |opts| ==> opts[i].field != f
    ensures Get(ApplyAll(c, opts), f) == Get(c, f)
  {
    if opts != [] {
      UnnamedFieldKept(c, opts[..|opts| - 1], f);
    }
  }

  /** Last write wins: a field holds the value of the last option that
      names it. */
  lemma {:induction false} LastWriteWins(c: Config, opts: seq<ConfigOption>, i: nat)
    requires i < |opts|
    requires forall j :: i < j < |opts| ==> opts[j].field != opts[i].field
    ensures Get(ApplyAll(c, opts), opts[i].field) == opts[i].value
  {
    var n := |opts| - 1;
    if i < n {
      LastWriteWins(c, opts[..n], i);
    }
  }

  /** `NewConfig`: the defaults, then each option in order. */
  method NewConfig(apiKey: string, apiSecret: string, opts: seq<ConfigOption>) returns (c: Config)
    ensures c == ApplyAll(Defaults(apiKey, apiSecret), opts)
    ensures opts == [] ==> c == Config("https://sdk.tyrads.com", "https://api.tyrads.com", "v3.0", "Web", apiKey, apiSecret, "en")
  {
    c := Defaults(apiKey, apiSecret);
    var i := 0;
    while i < |opts|
      invariant 0 <= i <= |opts|
      invariant c == ApplyAll(Defaults(apiKey, apiSecret), opts[..i])
    {
      assert opts[..i + 1][..i] == opts[..i];
      c := Apply(c, opts[i]);
      i := i + 1;
    }
    assert opts[..i] == opts;
  }
}
