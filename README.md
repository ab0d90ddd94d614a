# geoip: client-IP discovery and location reshaping

A Dafny model of the two pieces of logic in `geoip.go` of the `ip` package, a
small Go library that wraps a MaxMind geolocation database reader and a Fiber
web-framework middleware.

- **Client-IP discovery (`IP`).** When the application's proxy-header setting
  is `"*"`, the forwarding headers in `possibleHeaderes` are read in priority
  order. The first one whose raw value is longer than three bytes decides the
  result. Otherwise the connection address is used, replaced by `0.0.0.0` when
  it is three bytes or shorter. In both cases the result is the leftmost match
  of the regular expression `\d{1,3}\.\d{1,3}\.\d{1,3}\.\d{1,3}`, or the empty
  string when nothing matches.
- **Location lookup (`GetLocation`).** Text that does not parse as an address
  gives the error "Invalid IP address". A lookup error is returned unchanged.
  Otherwise the decoded record is flattened into a `Response`.

Files and modules:

- `wrappers.dfy` (`Wrappers`): `Option` and `Result`.
- `bytes.dfy` (`Bytes`): bytes, and Go's `\d` (ASCII `0`-`9` only). Header
  values and addresses are byte sequences, because Go's `len` counts bytes.
- `dotted_quad.dfy` (`DottedQuad`): the extractor `fetchIpFromString`.
  - The regular expression's meaning comes first. `Admits` says where the
    pattern matches and with which group lengths. `FirstAt` says which match
    RE2's leftmost-first mode reports at one start: the one whose group lengths
    are lexicographically largest, because each greedy `\d{1,3}` tries longer
    lengths first and earlier groups choose first. `LeftmostFirst` adds that no
    earlier start matches.
  - The hand-written matcher follows. `MatchAt` takes each of the first three
    groups as the whole digit run up to the next `.`, which must be 1 to 3
    digits long. It then takes up to three leading digits of the final run.
    `Locate` scans the start positions and `Find` cuts out the match.
  - The matcher is proved to compute exactly the reference meaning.
- `client_ip.dfy` (`ClientIp`): `IP` as a method with the source's loop. It is
  proved equal to `ResolveClientIP`, whose header scan `Candidate` is
  recursive, and the
  header-priority properties are proved about that specification.
- `geo_location.dfy` (`GeoLocation`): `GetLocation` over two supplied
  functions. `parseIP` stands for `net.ParseIP` and `lookup` for the reader's
  `Lookup`.
- `scenarios.dfy` (`Scenarios`): concrete inputs worked through the model.

Behaviour of the code worth knowing:

- `Country` is the `"en"` entry of `record.Country.Names`, and `City` the `"en"` entry of `record.City.Names`; each is `""` when that entry is missing (geoip.go:69-74).
- The result of `IP` is any text the pattern matches, not necessarily a valid IPv4 address (geoip.go:78). Group values above 255 are accepted (`999.999.999.999`). A final group longer than three digits is cut short (`1.2.3.4567` gives `1.2.3.456`). A first group longer than three digits moves the match start forward (`1234.5.6.7` gives `234.5.6.7`).
- Header and address lengths are counted in bytes (geoip.go:97, 103). All address text, including `GetLocation`'s argument and the `IP` field of `Response`, is a byte sequence, so `IP`'s result can be passed to `GetLocation` as the location middleware does (geoip.go:119-120). The names, ISO code and time zone decoded from the database stay Dafny strings; the model only copies them.

## Model

| member | source | states |
|---|---|---|
| DottedQuad.DigitRun | geoip.go:78 | the digit run at a position: every byte in it is an ASCII digit, and it stops at the end or at a non-digit |
| DottedQuad.DottedGroup | geoip.go:78 | a found group is 1 to 3 digits long and is followed by `.` |
| DottedQuad.MatchAt | geoip.go:78 | a match found at a start really is an occurrence of the pattern there |
| DottedQuad.Find | geoip.go:98 | `fetchIpFromString.Find`: the result is empty, or a contiguous piece of the input made of four groups of 1 to 3 digits separated by dots, with no range check on the groups |
| DottedQuad.Locate | geoip.go:78 | a located match starts no earlier than the scan start and is an occurrence of the pattern |
| DottedQuad.RunIsForced | geoip.go:78 | a group followed by `.` must be the whole digit run at its start, so the first three group lengths are forced |
| DottedQuad.RunCovers | geoip.go:78 | any group lies inside the digit run at its start, so no match at a start has a longer last group than the matcher's |
| DottedQuad.MatchAtDominates | geoip.go:78 | every match at a start has the matcher's first three groups and a last group no longer than its |
| DottedQuad.MatchAtIsFirst | geoip.go:78 | the matcher finds a match at a start iff the pattern matches there, and it finds the one leftmost-first backtracking reports |
| DottedQuad.LocateIsLeftmost | geoip.go:78 | the scan finds nothing iff the pattern matches nowhere; otherwise it finds the leftmost start and that start's reported match |
| DottedQuad.LeftmostFirstUnique | geoip.go:78 | there is at most one leftmost-first match |
| DottedQuad.FindIsLeftmostFirst | geoip.go:98 | `Find` is empty iff the pattern matches nowhere; otherwise it is the leftmost-first match |
| DottedQuad.WithoutDotNothingFound | geoip.go:78 | a value with no `.`, such as an IPv6 literal, yields the empty string |
| ClientIp.Peek | geoip.go:96 | `Header.Peek`: an absent header reads as empty; otherwise the value is exactly the stored bytes |
| ClientIp.Candidate | geoip.go:94-105 | the value the extractor runs on is longer than three bytes, and is the fallback address or the value of one of the listed headers, never of another header |
| ClientIp.ResolveClientIP | geoip.go:92-109 | the client address is empty or a dotted quad cut out of the connection address, `0.0.0.0` or a listed forwarding header; without `"*"` it comes from the connection address (the value of `c.IP()`) or `0.0.0.0` only |
| ClientIp.Fallback | geoip.go:102-105 | the fallback candidate is always longer than three bytes |
| ClientIp.IP | geoip.go:92-109 | the method returns `ResolveClientIP`; with trusted proxies the deciding header's extraction is returned; without trust or a usable header, the fallback address's extraction is returned |
| ClientIp.FirstUsableDecides | geoip.go:95-99 | the first header longer than three bytes, in list order, is the candidate |
| ClientIp.NoneUsableFallsBack | geoip.go:94-105 | when no listed header is longer than three bytes, the candidate is the connection address, or `0.0.0.0` |
| ClientIp.OnlyOneDecides | geoip.go:95-99 | at most one header position decides the result |
| ClientIp.FirstUsableHeaderDecides | geoip.go:94-99 | with trusted proxies the result is the extraction from the deciding header, even when that extraction is empty |
| ClientIp.LaterHeadersIgnored | geoip.go:95-99 | headers after the deciding one do not affect the result |
| ClientIp.ConnectionAddressUsed | geoip.go:94-108 | without trust, or with no usable header, the result comes from the connection address alone |
| ClientIp.ZeroAddressFound | geoip.go:104 | extraction from `0.0.0.0` gives `0.0.0.0` |
| ClientIp.ShortConnectionGivesZero | geoip.go:102-108 | a connection address of at most three bytes then gives exactly `0.0.0.0` |
| ClientIp.ResultIsDottedQuad | geoip.go:92-109 | the result is empty exactly when the chosen candidate has no match; otherwise it is the candidate's leftmost-first dotted quad |
| GeoLocation.GetLocation | geoip.go:50-76 | unparsable text gives "Invalid IP address"; a lookup error is returned unchanged; success iff both parse and lookup succeed; `IP` is the input, `IsoCode` and `Timezone` are copied, and `Country` and `City` are the `"en"` names or `""` |
| GeoLocation.EnglishName | geoip.go:69-74 | the `"en"` entry of a name map when present; otherwise the empty string |
| GeoLocation.InvalidAddressSkipsLookup | geoip.go:52-55 | for unparsable text the result does not depend on the database at all |
| GeoLocation.OnlyParsedAddressLookedUp | geoip.go:52-62 | the result depends on the database only through the entry for the parsed address |
| GeoLocation.ParisRecord | geoip.go:64-75 | a record with an English city name and no English country name gives that city and an empty country |
| Scenarios.LastGroupTruncated | geoip.go:78 | `1.2.3.4567` gives `1.2.3.456` |
| Scenarios.MatchStartsInsideRun | geoip.go:78 | `1234.5.6.7` gives `234.5.6.7` |
| Scenarios.GroupsAreNotRangeChecked | geoip.go:78 | `999.999.999.999` is returned whole |
| Scenarios.Ipv6Ignored | geoip.go:78 | `2001:db8::1` gives the empty string |
| Scenarios.FirstOfList | geoip.go:78 | `203.0.113.5, 10.0.0.1` gives `203.0.113.5` |
| Scenarios.ForwardedForList | geoip.go:94-98 | with trusted proxies and only `X-Forwarded-For: 203.0.113.5, 10.0.0.1`, the result is `203.0.113.5` |
| Scenarios.NothingKnownGivesZero | geoip.go:94-108 | with trusted proxies, no headers and an empty connection address, the result is `0.0.0.0` |

## Left out

- `NewGeoIpDB` (geoip.go:39-48): it opens a file and panics on failure, which is I/O.
- The database reader's `Lookup` and the MMDB file format belong to an external library. `lookup` is a supplied function returning a record or an error. The library leaves the record zero-valued, with no error, for an address it does not hold; to this model that is a successful lookup of an empty record.
- `net.ParseIP` is a standard-library parser of IPv4 and IPv6 text. It is the supplied function `parseIP`, not re-implemented.
- The connection address `connAddr` stands for the value of Fiber's `c.IP()` (geoip.go:102). Fiber itself may take that value from a request header, namely the one the proxy-header setting names (a header literally named `*` under `"*"`). Where the model says the result comes "from the connection address", it means that value, wherever Fiber read it. How Fiber computes `c.IP()` is not part of this model.
- The Fiber context is replaced by plain inputs: a header map, the proxy-header setting and the connection address. Fiber matches header names case-insensitively; the model looks them up by exact name.
- `Detect` and `DetectLocation` (geoip.go:111-125) are middleware glue. They store `IP`'s result, and for `DetectLocation` also `GetLocation`'s response (nil on error), in per-request storage and call the next handler. They add no logic beyond the two modelled functions.
- General regular expressions are not modelled; only the one fixed pattern is.
- `examples/main.go` prints one lookup and the elapsed time. It is I/O and timing only.
