/**
 * The HTTP interceptor that carries the user's region: outgoing requests to
 * the API get an Accept-Region header naming the current region, and the
 * first Content-Region header the API answers with sets the region when
 * none is chosen yet.
 */
module RegionInterceptor {
  import opened Common

  /** A supported region. */
  datatype Region = Region(code: string, name: string)

  /** The region service the interceptor talks to. Only its current region
      and the two calls the interceptor makes are modelled; looking a region
      up by code is the function `byCode`. */
  class RegionService {
    const byCode: string -> Option<Region>
    var currentRegion: Option<Region>

    constructor (byCode: string -> Option<Region>, currentRegion: Option<Region>)
      ensures this.byCode == byCode && this.currentRegion == currentRegion
    {
      this.byCode := byCode;
      this.currentRegion := currentRegion;
    }

    /** `getRegionByCode(code)`. */
    function GetRegionByCode(code: string): Option<Region> {
      byCode(code)
    }

    /** `setRegion(region)`: the region becomes the current one. */
    method SetRegion(region: Option<Region>)
      modifies this
      ensures currentRegion == region
    {
      currentRegion := region;
    }
  }

  /** Angular's injector, counting how often the region service is looked up. */
  class Injector {
    const regionService: RegionService
    var lookups: nat

    constructor (regionService: RegionService)
      ensures this.regionService == regionService && lookups == 0
    {
      this.regionService := regionService;
      lookups := 0;
    }

    /** `$injector.get('regionService')`. */
    method Get() returns (s: RegionService)
      modifies this
      ensures s == regionService && lookups == old(lookups) + 1
    {
      s := regionService;
      lookups := lookups + 1;
    }
  }

  /** The request configuration: whether it goes to the API's base URL, and
      its headers. */
  class Config {
    const isBaseUrl: Value
    var headers: map<string, Value>

    constructor (isBaseUrl: Value, headers: map<string, Value>)
      ensures this.isBaseUrl == isBaseUrl && this.headers == headers
    {
      this.isBaseUrl := isBaseUrl;
      this.headers := headers;
    }
  }

  /** A response and its headers; a missing header reads null. */
  class HttpResponse {
    const headers: map<string, Value>
    const data: Value

    constructor (headers: map<string, Value>, data: Value)
      ensures this.headers == headers && this.data == data
    {
      this.headers := headers;
      this.data := data;
    }

    function Header(name: string): Value {
      Lookup(headers, name)
    }
  }

  /** The headers `request` leaves a configuration with. */
  function RequestHeaders(isBaseUrl: Value, headers: map<string, Value>, current: Option<Region>): (r: map<string, Value>)
    ensures !JsTruthy(isBaseUrl) || current.None? ==> r == headers
    ensures JsTruthy(isBaseUrl) && current.Some? ==>
      "Accept-Region" in r && r["Accept-Region"] == Str(current.value.code) &&
      forall h :: h != "Accept-Region" ==> (h in r <==> h in headers) && (h in r ==> r[h] == headers[h])
  {
    if JsTruthy(isBaseUrl) && current.Some? then headers["Accept-Region" := Str(current.value.code)] else headers
  }

  /** The current region after a response with that Content-Region header. */
  function RegionAfter(header: Value, current: Option<Region>, byCode: string -> Option<Region>): (r: Option<Region>)
    ensures current.Some? ==> r == current
    ensures current.None? && JsTruthy(header) ==> r == byCode(JsToString(header))
    ensures !JsTruthy(header) ==> r == current
  {
    if JsTruthy(header) && current.None? then byCode(JsToString(header)) else current
  }

  /** Once a region is set, no sequence of Content-Region headers changes it. */
  lemma {:induction false} RegionStaysSet(headers: seq<Value>, current: Region, byCode: string -> Option<Region>)
    ensures Replayed(headers, Some(current), byCode) == Some(current)
  {
    if |headers| > 0 {
      RegionStaysSet(headers[..|headers| - 1], current, byCode);
    }
  }

  /** The current region after responses with those headers, in order. */
  function Replayed(headers: seq<Value>, current: Option<Region>, byCode: string -> Option<Region>): Option<Region> {
    if |headers| == 0 then current
    else RegionAfter(headers[|headers| - 1], Replayed(headers[..|headers| - 1], current, byCode), byCode)
  }

  /** Responses whose headers are empty or name no known region leave an
      unset region unset. */
  lemma {:induction false} UnknownRegionsLeaveUnset(headers: seq<Value>, byCode: string -> Option<Region>)
    requires forall i :: 0 <= i < |headers| ==> !JsTruthy(headers[i]) || byCode(JsToString(headers[i])).None?
    ensures Replayed(headers, None, byCode) == None
  {
    if |headers| > 0 {
      UnknownRegionsLeaveUnset(headers[..|headers| - 1], byCode);
    }
  }

  class Interceptor {
    const injector: Injector
    var regionService: RegionService?

    constructor (injector: Injector)
      ensures this.injector == injector && regionService == null
    {
      this.injector := injector;
      regionService := null;
    }

    /** The service is looked up at most once: before the first lookup the
        cache is empty, after it the cache holds the injector's service. */
    predicate Valid()
      reads this, injector
    {
      if regionService == null then injector.lookups == 0
      else regionService == injector.regionService && injector.lookups == 1
    }

    /** `getRegionService()`: the cached service, fetched from the injector
        the first time only. */
    method GetRegionService() returns (s: RegionService)
      requires Valid()
      modifies this, injector
      ensures Valid()
      ensures s == injector.regionService && regionService == s
      ensures injector.lookups == 1
      ensures old(regionService) != null ==> injector.lookups == old(injector.lookups)
    {
      if regionService == null {
        regionService := injector.Get();
      }
      s := regionService;
    }

    /** `request(config)`: the same configuration, given the Accept-Region
        header when it goes to the API and a region is current; a request
        elsewhere does not look the service up. */
    method Request(config: Config) returns (r: Config)
      requires Valid()
      modifies this, injector, config
      ensures Valid() && r == config
      ensures config.headers == RequestHeaders(config.isBaseUrl, old(config.headers), injector.regionService.currentRegion)
      ensures !JsTruthy(config.isBaseUrl) ==> regionService == old(regionService) && injector.lookups == old(injector.lookups)
      ensures JsTruthy(config.isBaseUrl) ==> injector.lookups == 1
      ensures injector.regionService.currentRegion == old(injector.regionService.currentRegion)
    {
      if !JsTruthy(config.isBaseUrl) {
        return config;
      }
      var service := GetRegionService();
      if service.currentRegion.Some? {
        config.headers := config.headers["Accept-Region" := Str(service.currentRegion.value.code)];
      }
      return config;
    }

    /** `response(response)`: the same response; a Content-Region header sets
        the region when none is current, and a response without one does
        not look the service up. */
    method Response(response: HttpResponse) returns (r: HttpResponse)
      requires Valid()
      modifies this, injector, injector.regionService
      ensures Valid() && r == response
      ensures injector.regionService.currentRegion ==
        RegionAfter(response.Header("Content-Region"), old(injector.regionService.currentRegion), injector.regionService.byCode)
      ensures !JsTruthy(response.Header("Content-Region")) ==>
        regionService == old(regionService) && injector.lookups == old(injector.lookups)
      ensures JsTruthy(response.Header("Content-Region")) ==> injector.lookups == 1
    {
      var regionHeader := response.Header("Content-Region");
      if JsTruthy(regionHeader) {
        var service := GetRegionService();
        if service.currentRegion.None? {
          service.SetRegion(service.GetRegionByCode(JsToString(regionHeader)));
        }
      }
      return response;
    }
  }

  /** Two responses each naming a region: only the first sets it. */
  method TwoResponses(interceptor: Interceptor, first: HttpResponse, second: HttpResponse)
    requires interceptor.Valid()
    requires interceptor.injector.regionService.currentRegion.None?
    requires JsTruthy(first.Header("Content-Region"))
    requires interceptor.injector.regionService.byCode(JsToString(first.Header("Content-Region"))).Some?
    modifies interceptor, interceptor.injector, interceptor.injector.regionService
    ensures interceptor.injector.regionService.currentRegion ==
      interceptor.injector.regionService.byCode(JsToString(first.Header("Content-Region")))
    ensures interceptor.injector.lookups == 1
  {
    var _ := interceptor.Response(first);
    var _ := interceptor.Response(second);
  }
}
