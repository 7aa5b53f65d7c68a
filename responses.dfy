/** The value a cached computation produces (IServiceCacheExecuteResponse). */
module Responses {

  datatype Response = Response(
    data: string,               // the computed payload proper
    cacheable: bool,            // Cacheable: may this result be stored?
    ids: seq<nat>,              // Ids: identifiers for a future index
    durations: seq<int>,        // timings of the computation that produced it
    wasCached: bool,            // WasCached: served from the primary tier
    wasCachedSecondary: bool,   // WasCachedSecondary: served from the secondary tier
    cacheEnabled: bool)         // CacheEnabled: the service's setting when served
  {
    /** ClearDurations(): a cached copy must not report the original timings. */
    function ClearDurations(): (r: Response)
      ensures r.durations == []
      ensures r.(durations := durations) == this
    {
      this.(durations := [])
    }
  }
}
