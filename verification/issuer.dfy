/**
 * The issuing half of the handler: finding the storage URL in the service
 * catalog, and the headers of the success response.
 */
module Issuer {
  import opened Wrappers
  import opened KeystoneApi

  /** What the catalog scan ends with. */
  datatype UrlLookup =
    | Found(url: string)
    | NoRegion   // no region offers the service: `storage_url` is never bound
    | NoUrlType  // the first region offering it lacks the URL type: `KeyError`

  /** The first region, in iteration order, that offers `serviceType`. */
  function FirstRegionOffering(catalog: Catalog, serviceType: string): (i: Option<nat>)
    ensures i.Some? ==>
      i.value < |catalog| && serviceType in catalog[i.value].services &&
      forall j | 0 <= j < i.value :: serviceType !in catalog[j].services
    ensures i.None? ==> forall j | 0 <= j < |catalog| :: serviceType !in catalog[j].services
  {
    if |catalog| == 0 then None
    else if serviceType in catalog[0].services then Some(0)
    else
      match FirstRegionOffering(catalog[1..], serviceType)
      case None => None
      case Some(k) => Some(k + 1)
  }

  /** `services[service_type][url_type]` of the first region offering the service. */
  function StorageUrl(catalog: Catalog, serviceType: string, urlType: string): UrlLookup
  {
    match FirstRegionOffering(catalog, serviceType)
    case None => NoRegion
    case Some(i) =>
      var urls := catalog[i].services[serviceType];
      if urlType in urls then Found(urls[urlType]) else NoUrlType
  }

  /**
   * Lines 166-171 of the handler: walk the regions in order and stop at the
   * first that offers the service, reading the URL of the configured type.
   */
  method FindStorageUrl(catalog: Catalog, serviceType: string, urlType: string) returns (r: UrlLookup)
    ensures r == StorageUrl(catalog, serviceType, urlType)
  {
    r := NoRegion;
    for i := 0 to |catalog|
      invariant forall j | 0 <= j < i :: serviceType !in catalog[j].services
    {
      var services := catalog[i].services;
      if serviceType in services {
        var urls := services[serviceType];
        if urlType !in urls {
          return NoUrlType;
        }
        return Found(urls[urlType]);
      }
    }
  }

  /** Regions after the first one offering the service are never read. */
  lemma {:induction false} LaterRegionsIgnored(catalog: Catalog, later: Catalog, serviceType: string, urlType: string)
    requires exists i | 0 <= i < |catalog| :: serviceType in catalog[i].services
    ensures StorageUrl(catalog + later, serviceType, urlType) == StorageUrl(catalog, serviceType, urlType)
  {
    if serviceType !in catalog[0].services {
      assert (catalog + later)[1..] == catalog[1..] + later;
      var i :| 0 <= i < |catalog| && serviceType in catalog[i].services;
      assert catalog[1..][i - 1] == catalog[i];
      LaterRegionsIgnored(catalog[1..], later, serviceType, urlType);
    } else {
      assert (catalog + later)[0] == catalog[0];
    }
  }

  /** A response header value: text, or (as the source has it) the `keystone.token` module object. */
  datatype HeaderValue = Text(text: string) | TokenModule

  /**
   * Lines 174-180 as written: both token headers are set to the name
   * `token`, which in that module is the imported `keystone.token` module.
   */
  function ResponseHeadersAsWritten(tokenId: string, storageUrl: string): (h: map<string, HeaderValue>)
    ensures h.Keys == {"x-auth-token", "x-storage-token", "x-storage-url"}
    ensures h["x-storage-url"] == Text(storageUrl)
  {
    map["x-auth-token" := TokenModule, "x-storage-token" := TokenModule, "x-storage-url" := Text(storageUrl)]
  }

  /** The as-written headers never carry the token that was just stored, whatever its id. */
  lemma AsWrittenHeadersLoseToken(tokenId: string, storageUrl: string)
    ensures ResponseHeadersAsWritten(tokenId, storageUrl)["x-auth-token"] != Text(tokenId)
    ensures ResponseHeadersAsWritten(tokenId, storageUrl)["x-storage-token"] != Text(tokenId)
  {
  }

  /** The success headers as intended: both token headers carry the new token id, plus the storage URL. */
  function ResponseHeaders(tokenId: string, storageUrl: string): (h: map<string, HeaderValue>)
    ensures h.Keys == {"x-auth-token", "x-storage-token", "x-storage-url"}
    ensures h["x-auth-token"] == h["x-storage-token"] == Text(tokenId)
    ensures h["x-storage-url"] == Text(storageUrl)
  {
    map["x-auth-token" := Text(tokenId), "x-storage-token" := Text(tokenId), "x-storage-url" := Text(storageUrl)]
  }
}
