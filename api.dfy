/** The web client's server access (`web/src/api.js`): the base URL is read
    from the environment, falling back to the hosted server, and forced to
    end in `/api`; the upload and report requests carry a configuration that
    gains credentials only when a user name is given. The requests themselves
    are not modelled; their URLs and configurations are. */
module Api {
  import opened Wrappers
  import opened Text

  /** The hosted server used when no base URL is configured. */
  const DefaultBase: string := "https://fosse-equipment-monitor.onrender.com/api"

  /** The configured base: the environment value, unless it is missing or
      empty (both are falsy), in which case the hosted server. */
  function ConfiguredBase(env: Option<string>): (r: string)
    ensures env.Some? && env.value != "" ==> r == env.value
    ensures env.None? || env.value == "" ==> r == DefaultBase
  {
    if env.Some? && env.value != "" then env.value else DefaultBase
  }

  /** `replace(/\/$/, '')`: one trailing slash removed, if there is one. */
  function DropTrailingSlash(s: string): (r: string)
    ensures s == r + "/" || (r == s && !EndsWith(s, "/"))
  {
    if |s| > 0 && s[|s| - 1] == '/' then s[..|s| - 1] else s
  }

  /** The normalised base: unchanged when it already ends in `/api`,
      otherwise without one trailing slash and with `/api` appended. */
  function Normalised(base: string): string
  {
    if EndsWith(base, "/api") then base else DropTrailingSlash(base) + "/api"
  }

  /** The module's start-up code: the base URL is taken from the
      environment and reassigned when it lacks the `/api` suffix. */
  method ApiBase(env: Option<string>) returns (apiBase: string)
    ensures apiBase == Normalised(ConfiguredBase(env))
    ensures EndsWith(apiBase, "/api")
  {
    apiBase := if env.Some? && env.value != "" then env.value else DefaultBase;
    if !EndsWith(apiBase, "/api") {
      apiBase := DropTrailingSlash(apiBase) + "/api";
    }
    NormalisedEndsWithApi(ConfiguredBase(env));
  }

  /** After normalisation the base ends in `/api`. */
  lemma NormalisedEndsWithApi(base: string)
    ensures EndsWith(Normalised(base), "/api")
  {
    EndsWithAppend(DropTrailingSlash(base), "/api");
  }

  /** Normalising twice is normalising once, and a base that already ends in
      `/api` is left as it is. */
  lemma NormalisedIdempotent(base: string)
    ensures Normalised(Normalised(base)) == Normalised(base)
    ensures EndsWith(base, "/api") ==> Normalised(base) == base
  {
    NormalisedEndsWithApi(base);
  }

  /** Otherwise the base keeps everything but one trailing slash: a base
      ending in `/api/` becomes `…/api/api`, and without a trailing slash
      `/api` is simply appended. */
  lemma NormalisedAppends(base: string)
    requires !EndsWith(base, "/api")
    ensures EndsWith(base, "/") ==> Normalised(base) == base[..|base| - 1] + "/api"
    ensures !EndsWith(base, "/") ==> Normalised(base) == base + "/api"
    ensures EndsWith(base, "/api/") ==> Normalised(base) == base[..|base| - 5] + "/api/api"
  {
    if EndsWith(base, "/api/") {
      var stem := base[..|base| - 5];
      assert base == stem + "/api/" by {
        assert base[|base| - 5..] == "/api/";
      }
      assert base[..|base| - 1] == stem + "/api";
    }
  }

  /** With nothing configured the hosted server is used unchanged. */
  lemma DefaultBaseKept(env: Option<string>)
    requires env.None? || env.value == ""
    ensures Normalised(ConfiguredBase(env)) == DefaultBase
  {
    assert DefaultBase[|DefaultBase| - 4..] == "/api";
  }

  /** HTTP basic-authentication credentials. */
  datatype Credentials = Credentials(username: string, password: Option<string>)

  /** A user name is truthy when it is given and not empty. */
  predicate Truthy(username: Option<string>)
  {
    username.Some? && username.value != ""
  }

  /** A request's configuration object, which the request functions build
      and then extend in place. */
  class RequestConfig {
    var contentType: Option<string>
    var responseType: Option<string>
    var auth: Option<Credentials>

    constructor (contentType: Option<string>, responseType: Option<string>)
      ensures this.contentType == contentType && this.responseType == responseType && auth == None
    {
      this.contentType := contentType;
      this.responseType := responseType;
      auth := None;
    }

    /** `config.auth = …`. */
    method SetAuth(credentials: Credentials)
      modifies this
      ensures auth == Some(credentials)
      ensures contentType == old(contentType) && responseType == old(responseType)
    {
      auth := Some(credentials);
    }
  }

  /** The configuration of `uploadDataset`: always a multipart upload, with
      the credentials attached exactly when the user name is truthy. */
  method UploadConfig(username: Option<string>, password: Option<string>) returns (config: RequestConfig)
    ensures fresh(config)
    ensures config.contentType == Some("multipart/form-data") && config.responseType == None
    ensures config.auth.Some? <==> Truthy(username)
    ensures config.auth.Some? ==> config.auth.value == Credentials(username.value, password)
  {
    var auth := if Truthy(username) then Some(Credentials(username.value, password)) else None;
    config := new RequestConfig(Some("multipart/form-data"), None);
    if auth.Some? {
      config.SetAuth(auth.value);
    }
  }

  /** The configuration of `downloadReport`: always a binary (blob)
      response, with the credentials attached exactly when the user name is
      truthy. */
  method DownloadConfig(username: Option<string>, password: Option<string>) returns (config: RequestConfig)
    ensures fresh(config)
    ensures config.responseType == Some("blob") && config.contentType == None
    ensures config.auth.Some? <==> Truthy(username)
    ensures config.auth.Some? ==> config.auth.value == Credentials(username.value, password)
  {
    config := new RequestConfig(None, Some("blob"));
    if Truthy(username) {
      config.SetAuth(Credentials(username.value, password));
    }
  }

  /** The endpoints, relative to the normalised base. */
  function UploadUrl(apiBase: string): string { apiBase + "/upload/" }
  function DatasetsUrl(apiBase: string): string { apiBase + "/datasets/" }
  function RowsUrl(apiBase: string, id: nat): string { apiBase + "/datasets/" + NatToString(id) + "/data/" }
  function ReportUrl(apiBase: string, id: nat): string { apiBase + "/datasets/" + NatToString(id) + "/report.pdf" }

  /** Every endpoint extends the normalised base, so each one lies under an
      `/api/` path segment whatever the environment held. */
  lemma EndpointsUnderApi(env: Option<string>, id: nat)
    ensures var b := Normalised(ConfiguredBase(env));
      && IsPrefix(b + "/", UploadUrl(b)) && IsPrefix(b + "/", DatasetsUrl(b))
      && IsPrefix(b + "/", RowsUrl(b, id)) && IsPrefix(b + "/", ReportUrl(b, id))
      && EndsWith(b + "/", "/api/")
  {
    var b := Normalised(ConfiguredBase(env));
    NormalisedEndsWithApi(ConfiguredBase(env));
    assert (b + "/")[|b + "/"| - 5..] == b[|b| - 4..] + "/";
    assert (b + "/upload/")[..|b| + 1] == b + "/";
    assert (b + "/datasets/")[..|b| + 1] == b + "/";
    assert (b + "/datasets/" + NatToString(id) + "/data/")[..|b| + 1] == b + "/";
    assert (b + "/datasets/" + NatToString(id) + "/report.pdf")[..|b| + 1] == b + "/";
  }
}
