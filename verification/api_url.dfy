/**
 * How the dashboard frontend addresses the backend: the base URL it is configured with
 * (getApiBaseUrl and its helpers) and the URL of a request or of an asset served by the
 * backend (buildApiUrl and the pass-through branch of toBackendAssetUrl).
 */
module ApiUrl {
  import opened Wrappers
  import opened Text

  /** The parts of window.location the frontend reads. */
  datatype Location = Location(protocol: string, hostname: string)

  /** The regular expression /^https?:\/\//i: "http://" or "https://" in any letter case. */
  predicate IsAbsoluteHttpUrl(s: string)
  {
    StartsWith(Lower(s), "http://") || StartsWith(Lower(s), "https://")
  }

  /** A path that starts with "/" cannot be an absolute http(s) URL. */
  lemma SlashPathIsRelative(s: string)
    requires s != [] && s[0] == '/'
    ensures !IsAbsoluteHttpUrl(s)
  {
    assert Lower(s)[0] == '/';
  }

  /** The endpoint with one "/" put in front of it unless it already starts with one. */
  function NormalizeEndpoint(endpoint: string): (normalized: string)
    ensures StartsWith(normalized, "/")
    ensures EndsWith(normalized, endpoint) && |normalized| <= |endpoint| + 1
    ensures StartsWith(endpoint, "/") <==> normalized == endpoint
  {
    if StartsWith(endpoint, "/") then endpoint else "/" + endpoint
  }

  /** Normalising twice adds nothing: the slash is never doubled. */
  lemma NormalizeEndpointIdempotent(endpoint: string)
    ensures NormalizeEndpoint(NormalizeEndpoint(endpoint)) == NormalizeEndpoint(endpoint)
  {
  }

  /**
   * buildApiUrl: an absolute http(s) endpoint is used as it is; any other endpoint is
   * appended to the base after normalisation. The code tests whether the base is absolute
   * but both branches build the same string, so there is one case here.
   */
  function BuildApiUrl(apiBase: string, endpoint: string): (url: string)
    ensures IsAbsoluteHttpUrl(endpoint) ==> url == endpoint
    ensures !IsAbsoluteHttpUrl(endpoint) ==>
      && StartsWith(url, apiBase)
      && url[|apiBase|..] == NormalizeEndpoint(endpoint)
    ensures EndsWith(url, endpoint)
  {
    if IsAbsoluteHttpUrl(endpoint) then endpoint
    else
      var url := apiBase + NormalizeEndpoint(endpoint);
      assert url[|apiBase|..] == NormalizeEndpoint(endpoint);
      assert url[..|apiBase|] == apiBase;
      url
  }

  /** "videos" and "/videos" address the same URL. */
  lemma LeadingSlashOptional(apiBase: string, endpoint: string)
    requires endpoint == [] || endpoint[0] != '/'
    requires !IsAbsoluteHttpUrl(endpoint)
    ensures BuildApiUrl(apiBase, endpoint) == BuildApiUrl(apiBase, "/" + endpoint)
  {
    SlashPathIsRelative("/" + endpoint);
    assert ("/" + endpoint)[..1] == "/";
  }

  /** A relative endpoint is joined to the base with exactly one "/" between them. */
  lemma RelativeEndpointJoin(apiBase: string, endpoint: string)
    requires endpoint == [] || endpoint[0] != '/'
    ensures BuildApiUrl(apiBase, endpoint) == if IsAbsoluteHttpUrl(endpoint) then endpoint else apiBase + "/" + endpoint
  {
    if !IsAbsoluteHttpUrl(endpoint) {
      assert !StartsWith(endpoint, "/") by {
        assert endpoint == [] || endpoint[..1] != "/";
      }
      calc {
        BuildApiUrl(apiBase, endpoint);
        apiBase + NormalizeEndpoint(endpoint);
        apiBase + ("/" + endpoint);
        { assert apiBase + ("/" + endpoint) == apiBase + "/" + endpoint; }
        apiBase + "/" + endpoint;
      }
    }
  }

  /**
   * toBackendAssetUrl, as far as it is modelled: an empty path or an absolute http(s)
   * path is returned unchanged, and so is a relative path when the base is not absolute
   * and there is no window. The two branches that resolve the path with new URL(...)
   * against the base or the window's origin give None: URL resolution is not modelled.
   */
  function ToBackendAssetUrl(path: string, apiBase: string, window: Option<Location>): (url: Option<string>)
    ensures url.Some? ==> url.value == path
    ensures url.Some? <==> path == [] || IsAbsoluteHttpUrl(path) || (!IsAbsoluteHttpUrl(apiBase) && window.None?)
  {
    if path == [] || IsAbsoluteHttpUrl(path) then Some(path)
    else if IsAbsoluteHttpUrl(apiBase) then None
    else if window.Some? then None
    else Some(path)
  }

  /** trimTrailingSlash: a value longer than one character loses one trailing "/". */
  function TrimTrailingSlash(value: string): (trimmed: string)
    ensures |value| > 1 && value[|value| - 1] == '/' ==> trimmed + "/" == value
    ensures !(|value| > 1 && value[|value| - 1] == '/') ==> trimmed == value
  {
    if |value| > 1 && EndsWith(value, "/") then value[..|value| - 1] else value
  }

  /**
   * With at most one trailing slash to begin with, the result has none, unless it is the
   * root "/" itself.
   */
  lemma TrimTrailingSlashRemovesSingle(value: string)
    requires !EndsWith(value, "//")
    ensures var trimmed := TrimTrailingSlash(value);
      trimmed == "/" || trimmed == [] || trimmed[|trimmed| - 1] != '/'
  {
    if |value| > 1 && value[|value| - 1] == '/' {
      assert value[|value| - 2..] != "//";
    }
  }

  /** Only one slash goes: "http://x//" becomes "http://x/", so trimming twice differs from trimming once. */
  lemma TrimTrailingSlashNotIdempotent()
    ensures TrimTrailingSlash("http://x//") == "http://x/"
    ensures TrimTrailingSlash(TrimTrailingSlash("http://x//")) == "http://x"
  {
    var v := "http://x//";
    assert v[|v| - 1..] == "/";
    assert v[..|v| - 1] == "http://x/";
    var w := "http://x/";
    assert w[|w| - 1..] == "/";
    assert w[..|w| - 1] == "http://x";
  }

  /** inferApiBaseUrl: port 8000 on localhost, or on the page's own host and protocol. */
  function InferApiBaseUrl(window: Option<Location>): (url: string)
    ensures EndsWith(url, ":8000")
    ensures window.None? ==> url == "http://localhost:8000"
    ensures window.Some? ==> url == window.value.protocol + "//" + window.value.hostname + ":8000"
  {
    var suffix := ":8000";
    var host := if window.None? then "http://localhost" else window.value.protocol + "//" + window.value.hostname;
    var url := host + suffix;
    assert url[|url| - |suffix|..] == suffix;
    url
  }

  /**
   * getApiBaseUrl: the configured value with surrounding whitespace removed when that
   * leaves something, the inferred base otherwise; either way with one trailing "/" taken off.
   */
  function GetApiBaseUrl(configured: Option<string>, window: Option<Location>): (url: string)
    ensures url != []
    ensures var configuredBase := if configured.Some? then Strip(configured.value) else "";
      configuredBase != [] ==> url == configuredBase || url + "/" == configuredBase
    ensures configured.None? || Strip(configured.value) == [] ==> url == InferApiBaseUrl(window)
  {
    var configuredBase := if configured.Some? then Strip(configured.value) else "";
    TrimTrailingSlash(if configuredBase != [] then configuredBase else InferApiBaseUrl(window))
  }

  /** Which base getApiBaseUrl starts from: the configured one when it is not blank. */
  lemma GetApiBaseUrlSource(configured: Option<string>, window: Option<Location>)
    ensures configured.Some? && Strip(configured.value) != [] ==>
      GetApiBaseUrl(configured, window) == TrimTrailingSlash(Strip(configured.value))
    ensures configured.None? || Strip(configured.value) == [] ==>
      GetApiBaseUrl(configured, window) == InferApiBaseUrl(window)
  {
    var inferred := InferApiBaseUrl(window);
    assert inferred[|inferred| - 1] == '0';
  }

  /** Unconfigured and outside a browser, the base is http://localhost:8000 ... */
  lemma DefaultApiBase()
    ensures GetApiBaseUrl(None, None) == "http://localhost:8000"
  {
    GetApiBaseUrlSource(None, None);
  }

  /** ... and a request for a relative endpoint such as "videos" goes to http://localhost:8000/videos. */
  lemma DefaultRequestUrl(endpoint: string)
    requires endpoint == [] || endpoint[0] != '/'
    requires !IsAbsoluteHttpUrl(endpoint)
    ensures BuildApiUrl(GetApiBaseUrl(None, None), endpoint) == "http://localhost:8000/" + endpoint
  {
    DefaultApiBase();
    RelativeEndpointJoin("http://localhost:8000", endpoint);
    assert "http://localhost:8000" + "/" == "http://localhost:8000/";
  }
}
