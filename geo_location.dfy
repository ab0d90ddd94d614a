/**
 * Location lookup (`GetLocation` in geoip.go). Parsing the address text and
 * the database lookup are supplied as functions: `parseIP` stands for
 * `net.ParseIP` (`None` where Go returns nil) and `lookup` for the database
 * reader's `Lookup`, which yields the decoded record or an error. The
 * address text is a byte sequence, the same type `ClientIp.IP` returns, so
 * the two compose as the location middleware composes them.
 */
module GeoLocation {
  import opened Wrappers
  import opened Bytes

  /** `ipLookup`: the fields of a database record that are decoded. */
  datatype IpLookup = IpLookup(
    cityNames: map<string, string>,
    countryIsoCode: string,
    countryNames: map<string, string>,
    timeZone: string)

  /** `Response`: the flattened answer. */
  datatype Response = Response(
    city: string,
    ip: seq<byte>,
    country: string,
    isoCode: string,
    timezone: string)

  /** Go's `error` value, known here only by its message. */
  datatype Error = Error(message: string)

  /** The error for text that does not parse as an address. */
  const InvalidIPAddress: Error := Error("Invalid IP address")

  /** The language whose names are reported. */
  const English: string := "en"

  /** The `"en"` entry of a name map, or the empty string without one. */
  function EnglishName(names: map<string, string>): (r: string)
    ensures English in names ==> r == names[English]
    ensures r == "" || (English in names && r == names[English])
  {
    if English in names then names[English] else ""
  }

  /** `GetLocation`: validate, look up, and flatten the record. */
  function GetLocation<Addr>(
    parseIP: seq<byte> -> Option<Addr>,
    lookup: Addr -> Result<IpLookup, Error>,
    ip: seq<byte>
  ): (r: Result<Response, Error>)
    ensures parseIP(ip).None? ==> r == Failure(InvalidIPAddress)
    ensures parseIP(ip).Some? && lookup(parseIP(ip).value).Failure? ==>
      r == Failure(lookup(parseIP(ip).value).error)
    ensures r.Success? <==> parseIP(ip).Some? && lookup(parseIP(ip).value).Success?
    ensures r.Success? ==>
      var record := lookup(parseIP(ip).value).value;
      && r.value.ip == ip
      && r.value.isoCode == record.countryIsoCode
      && r.value.timezone == record.timeZone
      && (English in record.countryNames ==> r.value.country == record.countryNames[English])
      && (English !in record.countryNames ==> r.value.country == "")
      && (English in record.cityNames ==> r.value.city == record.cityNames[English])
      && (English !in record.cityNames ==> r.value.city == "")
  {
    match parseIP(ip)
    case None => Failure(InvalidIPAddress)
    case Some(addr) =>
      match lookup(addr)
      case Failure(err) => Failure(err)
      case Success(record) =>
        Success(Response(
          city := EnglishName(record.cityNames),
          ip := ip,
          country := EnglishName(record.countryNames),
          isoCode := record.countryIsoCode,
          timezone := record.timeZone))
  }

  /** Text that does not parse is rejected without consulting the database. */
  lemma InvalidAddressSkipsLookup<Addr>(
    parseIP: seq<byte> -> Option<Addr>,
    lookup1: Addr -> Result<IpLookup, Error>,
    lookup2: Addr -> Result<IpLookup, Error>,
    ip: seq<byte>)
    requires parseIP(ip).None?
    ensures GetLocation(parseIP, lookup1, ip) == GetLocation(parseIP, lookup2, ip) == Failure(InvalidIPAddress)
  {
  }

  /** The database is consulted only at the parsed address. */
  lemma OnlyParsedAddressLookedUp<Addr>(
    parseIP: seq<byte> -> Option<Addr>,
    lookup1: Addr -> Result<IpLookup, Error>,
    lookup2: Addr -> Result<IpLookup, Error>,
    ip: seq<byte>)
    requires parseIP(ip).Some? ==> lookup1(parseIP(ip).value) == lookup2(parseIP(ip).value)
    ensures GetLocation(parseIP, lookup1, ip) == GetLocation(parseIP, lookup2, ip)
  {
  }

  /**
   * A record naming Paris in English and French, with no English country
   * name: the city is reported, the country is empty, and the code and zone
   * are copied.
   */
  lemma ParisRecord<Addr>(
    parseIP: seq<byte> -> Option<Addr>,
    lookup: Addr -> Result<IpLookup, Error>,
    ip: seq<byte>)
    requires parseIP(ip).Some?
    requires lookup(parseIP(ip).value)
      == Success(IpLookup(map["en" := "Paris", "fr" := "Paris"], "FR", map["fr" := "France"], "Europe/Paris"))
    ensures GetLocation(parseIP, lookup, ip) == Success(Response("Paris", ip, "", "FR", "Europe/Paris"))
  {
  }
}
