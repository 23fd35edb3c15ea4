/** The main process's `get-geo` handler: strip the port, short-circuit local
    addresses, then ask three geolocation providers in a fixed order and take the
    first answer that passes that provider's own success test.

    The network is not modelled: how each provider request ended is an input
    (an `Outcome`), and the answer records which URLs the handler would have
    fetched, so that "later providers are not consulted" can be stated. */
module Geo {
  import opened Text

  /** Country, country code and city, as `get-geo` answers them and as a
      player record stores them. A field the answer leaves out is the empty
      string (both are falsy to the renderer). */
  datatype GeoInfo = GeoInfo(country: string, countryCode: string, city: string)

  /** The answer for a local address. */
  const LocalGeo := GeoInfo("Local", "", "")

  /** The answer when every provider failed. */
  const UnknownGeo := GeoInfo("Unknown", "", "")

  /** The body of a successful https://ipwho.is/<ip> response. */
  datatype WhoIsBody = WhoIsBody(success: bool, country: string, country_code: string, city: string)

  /** The body of a successful http://ip-api.com/json/<ip> response. */
  datatype IpApiBody = IpApiBody(status: string, country: string, countryCode: string, city: string)

  /** The body of a successful https://ipapi.co/<ip>/json/ response. */
  datatype IpapiCoBody = IpapiCoBody(country_name: string, country_code: string, city: string)

  /** How one provider request ended: `fetch` or `res.json()` threw, the
      response was not ok, or a JSON body arrived. */
  datatype Outcome<B> = Threw | NotOk | Body(body: B)

  /** What `get-geo` returns, together with the URLs it fetched, in order. */
  datatype Answer = Answer(info: GeoInfo, queried: seq<string>)

  /** `rawIp ? rawIp.split(':')[0] : ''`: the address without its port. */
  function StripPort(rawIp: string): (ip: string)
    ensures ':' !in ip && StartsWith(rawIp, ip)
    ensures |ip| == |rawIp| || rawIp[|ip|] == ':'
  {
    BeforeFirst(rawIp, ':')
  }

  /** The local-address test: empty, containing `127.0.0.1` or `192.168.`, or
      exactly `localhost`. These are substring tests, not prefix tests. */
  predicate IsLocal(ip: string) {
    ip == "" || Contains(ip, "127.0.0.1") || Contains(ip, "192.168.") || ip == "localhost"
  }

  function WhoIsUrl(ip: string): string { "https://ipwho.is/" + ip }
  function IpApiUrl(ip: string): string { "http://ip-api.com/json/" + ip }
  function IpapiCoUrl(ip: string): string { "https://ipapi.co/" + ip + "/json/" }

  /** Plan A's success test: `data.success` is truthy. */
  function WhoIsResult(o: Outcome<WhoIsBody>): (r: Option<GeoInfo>)
    ensures r.Some? <==> o.Body? && o.body.success
    ensures r.Some? ==> r.value == GeoInfo(o.body.country, o.body.country_code, o.body.city)
  {
    if o.Body? && o.body.success then Some(GeoInfo(o.body.country, o.body.country_code, o.body.city))
    else None
  }

  /** Plan B's success test: `data.status === 'success'`. */
  function IpApiResult(o: Outcome<IpApiBody>): (r: Option<GeoInfo>)
    ensures r.Some? <==> o.Body? && o.body.status == "success"
    ensures r.Some? ==> r.value == GeoInfo(o.body.country, o.body.countryCode, o.body.city)
  {
    if o.Body? && o.body.status == "success" then Some(GeoInfo(o.body.country, o.body.countryCode, o.body.city))
    else None
  }

  /** Plan C's success test: `data.country_name` is truthy (a non-empty string). */
  function IpapiCoResult(o: Outcome<IpapiCoBody>): (r: Option<GeoInfo>)
    ensures r.Some? <==> o.Body? && o.body.country_name != ""
    ensures r.Some? ==> r.value == GeoInfo(o.body.country_name, o.body.country_code, o.body.city)
  {
    if o.Body? && o.body.country_name != "" then Some(GeoInfo(o.body.country_name, o.body.country_code, o.body.city))
    else None
  }

  /** The handler as written: a sequence of early returns. */
  function GetGeo(rawIp: string, a: Outcome<WhoIsBody>, b: Outcome<IpApiBody>, c: Outcome<IpapiCoBody>): (r: Answer)
    ensures r.queried == [] <==> IsLocal(StripPort(rawIp))
    ensures r.queried == [] ==> r.info == LocalGeo
    ensures |r.queried| <= 3
    ensures !IsLocal(StripPort(rawIp)) && WhoIsResult(a).None? && IpApiResult(b).None? && IpapiCoResult(c).None? ==>
      r.info == UnknownGeo && |r.queried| == 3
  {
    var ip := StripPort(rawIp);
    if IsLocal(ip) then Answer(LocalGeo, [])
    else if a.Body? && a.body.success then
      Answer(GeoInfo(a.body.country, a.body.country_code, a.body.city), [WhoIsUrl(ip)])
    else if b.Body? && b.body.status == "success" then
      Answer(GeoInfo(b.body.country, b.body.countryCode, b.body.city), [WhoIsUrl(ip), IpApiUrl(ip)])
    else if c.Body? && c.body.country_name != "" then
      Answer(GeoInfo(c.body.country_name, c.body.country_code, c.body.city), [WhoIsUrl(ip), IpApiUrl(ip), IpapiCoUrl(ip)])
    else
      Answer(UnknownGeo, [WhoIsUrl(ip), IpApiUrl(ip), IpapiCoUrl(ip)])
  }

  /** One provider in an ordered cascade: the URL it fetches and what its
      success test made of the outcome. */
  datatype Attempt = Attempt(url: string, result: Option<GeoInfo>)

  /** The reference definition of a provider cascade: try the attempts in order
      and stop at the first success; with no success, answer `fallback`. */
  function Cascade(attempts: seq<Attempt>, fallback: GeoInfo): (r: Answer)
    ensures |r.queried| <= |attempts|
    ensures forall i :: 0 <= i < |r.queried| ==> r.queried[i] == attempts[i].url
    ensures forall i :: 0 <= i < |r.queried| - 1 ==> attempts[i].result.None?
    ensures r.queried == [] <==> attempts == []
    ensures r.queried == [] ==> r.info == fallback
    ensures r.queried != [] ==>
      var last := attempts[|r.queried| - 1];
      (last.result.Some? && r.info == last.result.value) ||
      (last.result.None? && |r.queried| == |attempts| && r.info == fallback)
  {
    if attempts == [] then Answer(fallback, [])
    else if attempts[0].result.Some? then Answer(attempts[0].result.value, [attempts[0].url])
    else
      var rest := Cascade(attempts[1..], fallback);
      Answer(rest.info, [attempts[0].url] + rest.queried)
  }

  /** The three providers in the order the handler tries them. */
  function Providers(ip: string, a: Outcome<WhoIsBody>, b: Outcome<IpApiBody>, c: Outcome<IpapiCoBody>): seq<Attempt> {
    [Attempt(WhoIsUrl(ip), WhoIsResult(a)), Attempt(IpApiUrl(ip), IpApiResult(b)), Attempt(IpapiCoUrl(ip), IpapiCoResult(c))]
  }

  /** For a non-local address the handler is exactly the ordered cascade over
      ipwho.is, ip-api.com and ipapi.co with fallback `Unknown`. */
  lemma GetGeoIsCascade(rawIp: string, a: Outcome<WhoIsBody>, b: Outcome<IpApiBody>, c: Outcome<IpapiCoBody>)
    requires !IsLocal(StripPort(rawIp))
    ensures GetGeo(rawIp, a, b, c) == Cascade(Providers(StripPort(rawIp), a, b, c), UnknownGeo)
  {
    var ps := Providers(StripPort(rawIp), a, b, c);
    assert ps[1..][1..][1..] == [];
    assert Cascade(ps[1..][1..], UnknownGeo) ==
      (if ps[2].result.Some? then Answer(ps[2].result.value, [ps[2].url])
       else Answer(UnknownGeo, [ps[2].url]));
  }

  /** Only the text before the first `:` matters: an address with a port gets
      the same answer, from the same requests, as the bare address. */
  lemma PortIsIgnored(ip: string, port: string, a: Outcome<WhoIsBody>, b: Outcome<IpApiBody>, c: Outcome<IpapiCoBody>)
    requires ':' !in ip
    ensures GetGeo(ip + ":" + port, a, b, c) == GetGeo(ip, a, b, c)
  {
    BeforeFirstOfJoin(ip, ':', port);
  }
}
