/**
 * Choosing a model backend from the model name: the name's prefix selects the provider,
 * an Ollama name loses its `ollama-` prefix, and an Ollama base URL from the environment
 * is normalised to a scheme, a port and an `/api` path.
 */
module GetModel {
  import opened Wrappers
  import opened Strings
  import opened EnvVars

  datatype Provider = Anthropic | Google | Ollama | OpenAI

  const ClaudePrefix := "claude-"
  const GeminiPrefix := "gemini-"
  const OllamaPrefix := "ollama-"

  /** The default OpenAI model, which the classification accepts before looking at prefixes. */
  const DefaultOpenAIName := "gpt-5.2"

  predicate HasVendorPrefix(name: string) {
    StartsWith(name, ClaudePrefix) || StartsWith(name, GeminiPrefix) || StartsWith(name, OllamaPrefix)
  }

  /**
   * `isOpenAIModel`: the empty name and the default OpenAI name are accepted outright;
   * any other name is an OpenAI name unless it carries a vendor prefix. The shortcut adds
   * nothing: the answer is always the absence of a vendor prefix.
   */
  function IsOpenAIModel(name: string): (r: bool)
    ensures r <==> !HasVendorPrefix(name)
  {
    if name == "" || name == DefaultOpenAIName then
      assert name == "" || StartsWith(name, DefaultOpenAIName);
      PrefixesExclusive(name, DefaultOpenAIName, ClaudePrefix, 0);
      PrefixesExclusive(name, DefaultOpenAIName, GeminiPrefix, 1);
      PrefixesExclusive(name, DefaultOpenAIName, OllamaPrefix, 0);
      true
    else !StartsWith(name, ClaudePrefix) && !StartsWith(name, GeminiPrefix) && !StartsWith(name, OllamaPrefix)
  }

  /** `getProvider`: the first vendor prefix decides; everything else is OpenAI. */
  function GetProvider(name: string): (r: Provider)
    ensures r == Anthropic <==> StartsWith(name, ClaudePrefix)
    ensures r == Google <==> StartsWith(name, GeminiPrefix)
    ensures r == Ollama <==> StartsWith(name, OllamaPrefix)
  {
    PrefixesExclusive(name, ClaudePrefix, GeminiPrefix, 0);
    PrefixesExclusive(name, ClaudePrefix, OllamaPrefix, 0);
    PrefixesExclusive(name, GeminiPrefix, OllamaPrefix, 0);
    if StartsWith(name, ClaudePrefix) then Anthropic
    else if StartsWith(name, GeminiPrefix) then Google
    else if StartsWith(name, OllamaPrefix) then Ollama
    else OpenAI
  }

  /** `getModelName`: an Ollama name without its prefix, any other name unchanged. */
  function GetModelName(name: string): (r: string)
    ensures StartsWith(name, OllamaPrefix) ==> OllamaPrefix + r == name
    ensures !StartsWith(name, OllamaPrefix) ==> r == name
  {
    PrefixesExclusive(name, ClaudePrefix, OllamaPrefix, 0);
    PrefixesExclusive(name, GeminiPrefix, OllamaPrefix, 0);
    if StartsWith(name, ClaudePrefix) then name
    else if StartsWith(name, GeminiPrefix) then name
    else if StartsWith(name, OllamaPrefix) then name[|OllamaPrefix|..]
    else name
  }

  // ---- Ollama base URL ----

  /**
   * The parts of an http or https URL the normalisation touches. `port` is `None` when
   * the URL gives no port or gives the scheme's default one, as the URL standard's `port`
   * accessor reports it.
   */
  datatype Url = Url(secure: bool, host: string, port: Option<nat>, path: string)

  const HttpScheme := "http://"
  const HttpsScheme := "https://"
  const OllamaPort: nat := 11434
  const MaxPort: nat := 65535
  const ApiSuffix := "/api"

  function SchemeText(secure: bool): string {
    if secure then HttpsScheme else HttpScheme
  }

  function DefaultPort(secure: bool): nat {
    if secure then 443 else 80
  }

  predicate HasScheme(s: string) {
    StartsWith(s, HttpScheme) || StartsWith(s, HttpsScheme)
  }

  /** The text of `s` before the first `c`, or all of `s`. */
  function Before(s: string, c: char): (r: string)
    ensures r <= s && c !in r
    ensures |r| < |s| ==> s[|r|] == c
    decreases |s|
  {
    if |s| == 0 || s[0] == c then [] else [s[0]] + Before(s[1..], c)
  }

  /** `Before` is the only prefix with its two properties. */
  lemma BeforeIs(s: string, c: char, a: string)
    requires a <= s && c !in a
    requires |a| < |s| ==> s[|a|] == c
    ensures Before(s, c) == a
  {
  }

  /**
   * The port text of an authority: empty or a decimal number up to 65535, else `None`.
   * A port equal to the scheme's default reads as no port.
   */
  function ParsePort(portText: string, secure: bool): (r: Option<Option<nat>>)
    ensures r.Some? && r.value.Some? ==> r.value.value <= MaxPort && r.value.value != DefaultPort(secure)
    ensures r.None? <==> !AllDigits(portText) || DigitsValue(portText) > MaxPort
  {
    if !AllDigits(portText) || DigitsValue(portText) > MaxPort then None
    else if portText == "" || DigitsValue(portText) == DefaultPort(secure) then Some(None)
    else Some(Some(DigitsValue(portText)))
  }

  /** The host (to the first `:`, lower-cased, non-empty) and the port of an authority. */
  function ParseAuthority(authority: string, secure: bool): (r: Option<(string, Option<nat>)>)
    ensures r.Some? ==> r.value.0 != "" && ':' !in r.value.0
    ensures '/' !in authority && r.Some? ==> '/' !in r.value.0
    ensures r.Some? && r.value.1.Some? ==> r.value.1.value <= MaxPort && r.value.1.value != DefaultPort(secure)
  {
    var hostText := Before(authority, ':');
    var portText := if |hostText| < |authority| then authority[|hostText| + 1..] else "";
    if hostText == "" then None
    else match ParsePort(portText, secure)
      case None => None
      case Some(port) => Some((ToLower(hostText), port))
  }

  /**
   * `new URL(s)` for a string that starts with a scheme: the authority runs to the first
   * `/`, the host to the first `:` in it, and the rest of the authority is the port.
   * `None` is the `TypeError` the constructor throws for an empty host, a port that is
   * not a decimal number, or a port above 65535. Host names are lower-cased; an empty
   * path reads as `/`. Queries, fragments, userinfo and bracketed IPv6 hosts are not
   * recognised: their text stays in the host or the port, so `localhost:11434?x=1` is
   * refused for its port and `user@host` is taken whole as a host, where the URL
   * constructor would accept both.
   */
  function ParseUrl(s: string): (r: Option<Url>)
    requires HasScheme(s)
    ensures r.Some? ==> r.value.host != "" && ':' !in r.value.host && '/' !in r.value.host
    ensures r.Some? ==> (r.value.secure <==> StartsWith(s, HttpsScheme))
    ensures r.Some? && r.value.port.Some? ==> r.value.port.value <= MaxPort
    ensures r.Some? && r.value.port.Some? ==> r.value.port.value != DefaultPort(r.value.secure)
    ensures r.Some? ==> StartsWith(r.value.path, "/")
  {
    var secure := StartsWith(s, HttpsScheme);
    var rest := s[|SchemeText(secure)|..];
    var authority := Before(rest, '/');
    var path := if |authority| == |rest| then "/" else rest[|authority|..];
    match ParseAuthority(authority, secure)
    case None => None
    case Some((host, port)) => Some(Url(secure, host, port, path))
  }

  function PortText(port: Option<nat>): string {
    if port.Some? then ":" + NatToString(port.value) else ""
  }

  /** `urlObj.toString()` for the parts modelled. */
  function SerializeUrl(u: Url): (r: string)
    ensures StartsWith(r, SchemeText(u.secure)) && EndsWith(r, u.path)
  {
    var r := SchemeText(u.secure) + u.host + PortText(u.port) + u.path;
    assert r[|r| - |u.path|..] == u.path;
    r
  }

  /** `.replace(/\/$/, '')`: one trailing slash removed. */
  function DropTrailingSlash(s: string): (r: string)
    ensures EndsWith(s, "/") ==> r + "/" == s
    ensures !EndsWith(s, "/") ==> r == s
  {
    if EndsWith(s, "/") then s[..|s| - 1] else s
  }

  /** The path with one trailing slash removed and `/api` appended unless already there. */
  function ApiPath(path: string): (r: string)
    ensures EndsWith(r, ApiSuffix)
    ensures StartsWith(path, "/") ==> StartsWith(r, "/")
  {
    var p := if EndsWith(path, "/") then path[..|path| - 1] else path;
    if EndsWith(p, ApiSuffix) then p else p + ApiSuffix
  }

  /** `http://` put in front unless the text already starts with either scheme. */
  function WithScheme(url: string): (r: string)
    ensures HasScheme(r)
    ensures HasScheme(url) ==> r == url
  {
    if !StartsWith(url, HttpScheme) && !StartsWith(url, HttpsScheme) then HttpScheme + url else url
  }

  /** The parts after normalisation: port 11434 when none is set, and the `/api` path. */
  function ForOllama(u: Url): (r: Url)
    ensures r.secure == u.secure && r.host == u.host
    ensures r.port == (if u.port.None? then Some(OllamaPort) else u.port)
    ensures EndsWith(r.path, ApiSuffix)
  {
    Url(u.secure, u.host, if u.port.None? then Some(OllamaPort) else u.port, ApiPath(u.path))
  }

  lemma EndsWithApi(s: string, path: string)
    requires EndsWith(s, path) && EndsWith(path, ApiSuffix)
    ensures EndsWith(s, ApiSuffix) && !EndsWith(s, "/") && s[|s| - 1] == 'i'
  {
    assert s[|s| - |ApiSuffix|..] == path[|path| - |ApiSuffix|..];
    assert s[|s| - 1] == 'i';
  }

  /**
   * `normalizeOllamaBaseUrl`: trim, add `http://` when neither scheme is present, give
   * port 11434 when none is set, make the path end in `/api`, and drop a trailing slash
   * from the text. `None` when the URL constructor throws.
   */
  function NormalizeOllamaBaseUrl(baseUrl: string): (r: Option<string>)
    ensures r.Some? ==> HasScheme(r.value) && EndsWith(r.value, ApiSuffix) && !EndsWith(r.value, "/")
    ensures r.Some? <==> ParseUrl(WithScheme(Trim(baseUrl))).Some?
  {
    match ParseUrl(WithScheme(Trim(baseUrl)))
    case None => None
    case Some(u) =>
      var n := ForOllama(u);
      EndsWithApi(SerializeUrl(n), n.path);
      Some(DropTrailingSlash(SerializeUrl(n)))
  }

  /** The backend `getModel` builds: the provider, the model name it is given, and the Ollama base URL. */
  datatype Backend = Backend(provider: Provider, modelName: string, baseUrl: Option<string>)

  /**
   * `getModel`: Anthropic, Google and OpenAI receive the name unchanged; Ollama receives
   * it without its prefix and, when `OLLAMA_BASE_URL` is non-empty, the normalised URL.
   * `None` when normalising that URL throws.
   */
  function ChooseBackend(name: string, env: Env): (r: Option<Backend>)
    ensures r.Some? ==> r.value.provider == GetProvider(name)
    ensures r.Some? && r.value.provider != Ollama ==> r.value.modelName == name && r.value.baseUrl.None?
    ensures r.Some? && r.value.provider == Ollama ==> OllamaPrefix + r.value.modelName == name
    ensures r.Some? && r.value.provider == Ollama ==>
      (r.value.baseUrl.Some? <==> "OLLAMA_BASE_URL" in env && env["OLLAMA_BASE_URL"] != "")
    ensures r.None? ==> GetProvider(name) == Ollama
  {
    match GetProvider(name)
    case Anthropic => Some(Backend(Anthropic, name, None))
    case Google => Some(Backend(Google, name, None))
    case OpenAI => Some(Backend(OpenAI, name, None))
    case Ollama =>
      if "OLLAMA_BASE_URL" in env && env["OLLAMA_BASE_URL"] != "" then
        match NormalizeOllamaBaseUrl(env["OLLAMA_BASE_URL"])
        case None => None
        case Some(url) => Some(Backend(Ollama, GetModelName(name), Some(url)))
      else Some(Backend(Ollama, GetModelName(name), None))
  }

  // ---- properties ----

  /** A name is an OpenAI name exactly when its provider is OpenAI. */
  lemma OpenAIModelIffOpenAIProvider(name: string)
    ensures IsOpenAIModel(name) <==> GetProvider(name) == OpenAI
  {
  }

  /** Prefixing a name with `ollama-` selects Ollama, and the backend sees the name again. */
  lemma OllamaNameRoundTrip(x: string)
    ensures GetProvider(OllamaPrefix + x) == Ollama
    ensures GetModelName(OllamaPrefix + x) == x
  {
    assert StartsWith(OllamaPrefix + x, OllamaPrefix);
  }

  /** A port reads back as itself. */
  lemma PortRoundTrip(port: Option<nat>, secure: bool)
    requires port.Some? ==> port.value <= MaxPort && port.value != DefaultPort(secure)
    ensures ParsePort(if port.Some? then NatToString(port.value) else "", secure) == Some(port)
  {
    if port.Some? {
      DecimalRoundTrip(port.value);
    }
  }

  lemma AuthorityRoundTrip(host: string, port: Option<nat>, secure: bool)
    requires host != "" && ':' !in host && ToLower(host) == host
    requires port.Some? ==> port.value <= MaxPort && port.value != DefaultPort(secure)
    ensures ParseAuthority(host + PortText(port), secure) == Some((host, port))
  {
    var authority := host + PortText(port);
    BeforeIs(authority, ':', host);
    if port.Some? {
      assert authority[|host| + 1..] == NatToString(port.value);
    } else {
      assert authority == host;
    }
    PortRoundTrip(port, secure);
  }

  lemma NoSlashInPort(port: Option<nat>)
    ensures '/' !in PortText(port)
  {
    if port.Some? {
      var digits := NatToString(port.value);
      forall i | 0 <= i < |digits| ensures digits[i] != '/' {
        assert IsDigit(digits[i]);
      }
      assert PortText(port) == [':'] + digits;
    }
  }

  /** The serialisation starts with the scheme and continues with the authority and the path. */
  lemma SerializeSplit(u: Url)
    ensures HasScheme(SerializeUrl(u))
    ensures StartsWith(SerializeUrl(u), HttpsScheme) <==> u.secure
    ensures SerializeUrl(u)[|SchemeText(u.secure)|..] == u.host + PortText(u.port) + u.path
    ensures SerializeUrl(u)[0] == 'h'
  {
    var s := SerializeUrl(u);
    if !u.secure {
      PrefixesExclusive(s, HttpScheme, HttpsScheme, 4);
    }
  }

  /** Parsing the serialisation of well-formed parts gives the parts back. */
  lemma ParseSerialize(u: Url)
    requires u.host != "" && ':' !in u.host && '/' !in u.host && ToLower(u.host) == u.host
    requires u.port.Some? ==> u.port.value <= MaxPort && u.port.value != DefaultPort(u.secure)
    requires StartsWith(u.path, "/")
    ensures HasScheme(SerializeUrl(u))
    ensures ParseUrl(SerializeUrl(u)) == Some(u)
  {
    SerializeSplit(u);
    var authority := u.host + PortText(u.port);
    var rest := authority + u.path;
    NoSlashInPort(u.port);
    BeforeIs(rest, '/', authority);
    assert rest[|authority|..] == u.path;
    AuthorityRoundTrip(u.host, u.port, u.secure);
  }

  /** A normalised URL has a port, and its path ends in `/api`. */
  lemma NormalizedShape(baseUrl: string)
    requires NormalizeOllamaBaseUrl(baseUrl).Some?
    ensures var r := NormalizeOllamaBaseUrl(baseUrl).value;
      ParseUrl(r).Some? && ParseUrl(r).value.port.Some? && EndsWith(ParseUrl(r).value.path, ApiSuffix)
      && SerializeUrl(ParseUrl(r).value) == r
  {
    var url := WithScheme(Trim(baseUrl));
    var u := ParseUrl(url).value;
    var n := ForOllama(u);
    ToLowerIdempotent(Before(Before(url[|SchemeText(u.secure)|..], '/'), ':'));
    ParseSerialize(n);
    EndsWithApi(SerializeUrl(n), n.path);
  }

  lemma NormalizeFixedPoint(r: string, u: Url)
    requires HasScheme(r) && Trim(r) == r
    requires ParseUrl(r) == Some(u) && ForOllama(u) == u && SerializeUrl(u) == r && !EndsWith(r, "/")
    ensures NormalizeOllamaBaseUrl(r) == Some(r)
  {
  }

  lemma TrimSerialized(u: Url)
    requires EndsWith(u.path, ApiSuffix)
    ensures Trim(SerializeUrl(u)) == SerializeUrl(u) && !EndsWith(SerializeUrl(u), "/")
  {
    SerializeSplit(u);
    EndsWithApi(SerializeUrl(u), u.path);
    TrimKeeps(SerializeUrl(u));
  }

  lemma ForOllamaKeeps(u: Url)
    requires u.port.Some? && EndsWith(u.path, ApiSuffix)
    ensures ForOllama(u) == u
  {
    EndsWithApi(u.path, u.path);
  }

  /** The parts a normalised URL is the serialisation of, with every fixed-point condition. */
  lemma NormalizedParts(baseUrl: string) returns (n: Url)
    requires NormalizeOllamaBaseUrl(baseUrl).Some?
    ensures NormalizeOllamaBaseUrl(baseUrl) == Some(SerializeUrl(n))
    ensures HasScheme(SerializeUrl(n)) && EndsWith(n.path, ApiSuffix)
    ensures ParseUrl(SerializeUrl(n)) == Some(n) && ForOllama(n) == n
  {
    var url := WithScheme(Trim(baseUrl));
    var u := ParseUrl(url).value;
    n := ForOllama(u);
    ToLowerIdempotent(Before(Before(url[|SchemeText(u.secure)|..], '/'), ':'));
    EndsWithApi(SerializeUrl(n), n.path);
    ParseSerialize(n);
    ForOllamaKeeps(n);
  }

  /** Normalising a normalised URL changes nothing. */
  lemma NormalizeIdempotent(baseUrl: string)
    requires NormalizeOllamaBaseUrl(baseUrl).Some?
    ensures NormalizeOllamaBaseUrl(NormalizeOllamaBaseUrl(baseUrl).value) == NormalizeOllamaBaseUrl(baseUrl)
  {
    var n := NormalizedParts(baseUrl);
    TrimSerialized(n);
    NormalizeFixedPoint(SerializeUrl(n), n);
  }

  /** A URL without a port is given the Ollama port; one with a non-default port keeps it. */
  lemma PortChosen(baseUrl: string)
    requires HasScheme(Trim(baseUrl)) && ParseUrl(Trim(baseUrl)).Some?
    ensures NormalizeOllamaBaseUrl(baseUrl).Some?
    ensures var u := ParseUrl(Trim(baseUrl)).value;
      var r := NormalizeOllamaBaseUrl(baseUrl).value;
      ParseUrl(r).Some? && ParseUrl(r).value.port == (if u.port.None? then Some(OllamaPort) else u.port)
      && ParseUrl(r).value.host == u.host && ParseUrl(r).value.secure == u.secure
  {
    var url := Trim(baseUrl);
    var u := ParseUrl(url).value;
    var n := ForOllama(u);
    ToLowerIdempotent(Before(Before(url[|SchemeText(u.secure)|..], '/'), ':'));
    ParseSerialize(n);
    EndsWithApi(SerializeUrl(n), n.path);
  }
}
