/** Service address construction for the end-to-end tests (`ServiceUrlBuilder`): a route
    is joined to the configured base address with exactly one '/' between them, and on a
    .NET Framework site the route is first put under the "0/" web application alias.
    Parsing the base address as an absolute `Uri` and printing it back is a library
    oracle: `parse` gives `Uri.ToString()` of the address, or nothing when
    `Uri.TryCreate(url, UriKind.Absolute, ...)` fails. */
module ServiceUrls {
  import opened Common
  import opened Text
  import opened E2EEnvironment

  const WebAppAlias := "0/"
  const MisconfiguredUrl := "Misconfigured Url, check settings and try again "
  const UrlParam := "Url"

  datatype KnownRoute =
    | Select | Insert | Update | Delete | GetBusinessRules | RunProcess | CompleteExecuting
    | GetWebHookSourceForUser | SaveWizaTokenForUser | DisableProcess | EnableProcess | Ping | HealthCheck

  /** `_knownRoutes`: every route but `GetBusinessRules` has a path. */
  const KnownRoutes: map<KnownRoute, string> := map[
    Select := "DataService/json/SyncReply/SelectQuery",
    Insert := "DataService/json/SyncReply/InsertQuery",
    Update := "DataService/json/SyncReply/UpdateQuery",
    Delete := "DataService/json/SyncReply/DeleteQuery",
    RunProcess := "ServiceModel/ProcessEngineService.svc/RunProcess",
    CompleteExecuting := "ServiceModel/ProcessEngineService.svc/CompleteExecuting",
    GetWebHookSourceForUser := "rest/WizaAppService/GetWebHookSourceForUser",
    SaveWizaTokenForUser := "rest/WizaAppService/SaveWizaTokenForUser",
    DisableProcess := "ServiceModel/ProcessEngineService.svc/DisableProcess",
    EnableProcess := "ServiceModel/ProcessEngineService.svc/EnableProcess",
    Ping := "ping",
    HealthCheck := "api/HealthCheck/Ping"]

  /** What a `Build` call gives: an address, the `ArgumentException` of a base address
      that is not absolute (message and parameter name), or the `KeyNotFoundException`
      of a route without a path. */
  datatype Built = Address(url: string) | ArgumentException(message: string, paramName: string) | KeyNotFound

  /** The `CreateUrl` switch on the printed base address and the route. */
  function Join(base: string, route: string): string {
    if EndsWithChar(base, '/') && StartsWithChar(route, '/') then base + route[1..]
    else if EndsWithChar(base, '/') != StartsWithChar(route, '/') then base + route
    else base + "/" + route
  }

  /** One trailing '/' removed, if there is one. */
  function DropTrailingSlash(s: string): string {
    if EndsWithChar(s, '/') then s[..|s| - 1] else s
  }

  /** One leading '/' removed, if there is one. */
  function DropLeadingSlash(s: string): string {
    if StartsWithChar(s, '/') then s[1..] else s
  }

  /** The join always reads as the base without one trailing '/', a single '/', and the
      route without one leading '/'. */
  lemma JoinOneSlash(base: string, route: string)
    ensures Join(base, route) == DropTrailingSlash(base) + "/" + DropLeadingSlash(route)
  {
    if EndsWithChar(base, '/') {
      assert base == DropTrailingSlash(base) + "/";
    }
    if StartsWithChar(route, '/') {
      assert route == "/" + DropLeadingSlash(route);
    }
  }

  /** When neither side carries a doubled slash at the join, the parts around the single
      '/' carry none, so exactly one '/' separates base and route. */
  lemma JoinSingleSlash(base: string, route: string)
    requires !EndsWith(base, "//") && !StartsWith(route, "//")
    ensures !EndsWithChar(DropTrailingSlash(base), '/') && !StartsWithChar(DropLeadingSlash(route), '/')
  {
    if EndsWithChar(base, '/') && |base| >= 2 {
      assert base[|base| - 2..] == [base[|base| - 2], base[|base| - 1]];
    }
    if StartsWithChar(route, '/') && |route| >= 2 {
      assert route[..2] == [route[0], route[1]];
    }
  }

  /** The route `Build` hands to `CreateUrl`: as given on .NET Core, and otherwise under
      "0/" with one leading '/' dropped. */
  function Endpoint(isNetCore: bool, endpoint: string): string {
    if isNetCore then endpoint else WebAppAlias + DropLeadingSlash(endpoint)
  }

  /** `CreateUrl(route)` for the configured address `url`. */
  function CreateUrl(parse: string -> Option<string>, url: string, route: string): (r: Built)
    ensures parse(url).None? <==> r == ArgumentException(MisconfiguredUrl, UrlParam)
    ensures parse(url).Some? ==> r == Address(Join(parse(url).value, route))
  {
    match parse(url)
    case None => ArgumentException(MisconfiguredUrl, UrlParam)
    case Some(base) => Address(Join(base, route))
  }

  /** `Build(serviceEndpoint)` under the given settings. */
  function BuildUnder(parse: string -> Option<string>, settings: EnvironmentSettings, endpoint: string): Built {
    CreateUrl(parse, settings.url, Endpoint(settings.isNetCore, endpoint))
  }

  /** On a .NET Framework site a leading '/' on the endpoint makes no difference, and the
      address is the printed base, one '/', "0/" and the endpoint. */
  lemma FrameworkEndpoint(parse: string -> Option<string>, settings: EnvironmentSettings, endpoint: string)
    requires !settings.isNetCore && parse(settings.url).Some?
    requires !StartsWithChar(endpoint, '/')
    ensures BuildUnder(parse, settings, "/" + endpoint) == BuildUnder(parse, settings, endpoint)
    ensures BuildUnder(parse, settings, endpoint) == Address(DropTrailingSlash(parse(settings.url).value) + "/" + WebAppAlias + endpoint)
  {
    assert DropLeadingSlash("/" + endpoint) == endpoint;
    JoinOneSlash(parse(settings.url).value, WebAppAlias + endpoint);
  }

  /** The table has a path for exactly the routes other than `GetBusinessRules`. */
  lemma KnownRoutesCover(route: KnownRoute)
    ensures route in KnownRoutes <==> route != GetBusinessRules
  {
  }

  /** `ServiceUrlBuilder`: the settings it was made with, replaced by every call that
      passes settings of its own. */
  class ServiceUrlBuilder {
    var settings: EnvironmentSettings
    const parse: string -> Option<string>

    constructor (settings: EnvironmentSettings, parse: string -> Option<string>)
      ensures this.settings == settings && this.parse == parse
    {
      this.settings := settings;
      this.parse := parse;
    }

    /** `Build(string)`. */
    function Build(endpoint: string): Built
      reads this
    {
      BuildUnder(parse, settings, endpoint)
    }

    /** `Build(KnownRoute)`: the route's path from the table, or `KeyNotFoundException`. */
    function BuildRoute(route: KnownRoute): (r: Built)
      reads this
      ensures route == GetBusinessRules <==> r == KeyNotFound
    {
      KnownRoutesCover(route);
      if route in KnownRoutes then Build(KnownRoutes[route]) else KeyNotFound
    }

    /** `Build(string, settings)`: the new settings are kept for every later call, and the
        address is the one the new settings give. */
    method BuildWith(endpoint: string, newSettings: EnvironmentSettings) returns (r: Built)
      modifies this
      ensures settings == newSettings
      ensures r == Build(endpoint)
    {
      settings := newSettings;
      r := BuildUnder(parse, settings, endpoint);
    }

    /** `Build(KnownRoute, settings)`: the table lookup comes first, so a route without a
        path fails before the settings are replaced. */
    method BuildRouteWith(route: KnownRoute, newSettings: EnvironmentSettings) returns (r: Built)
      modifies this
      ensures route in KnownRoutes ==> settings == newSettings && r == Build(KnownRoutes[route])
      ensures route !in KnownRoutes ==> settings == old(settings) && r == KeyNotFound
    {
      if route !in KnownRoutes {
        return KeyNotFound;
      }
      r := BuildWith(KnownRoutes[route], newSettings);
    }
  }

  /** A .NET Framework site at "https://google.com", which `Uri` prints with a trailing
      '/', answers ping at "https://google.com/0/ping". */
  lemma PingAddressExample(parse: string -> Option<string>, settings: EnvironmentSettings)
    requires settings.url == "https://google.com" && !settings.isNetCore
    requires parse(settings.url) == Some("https://google.com/")
    ensures BuildUnder(parse, settings, KnownRoutes[Ping]) == Address("https://google.com/0/ping")
  {
  }
}
