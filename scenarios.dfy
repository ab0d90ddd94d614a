/** Concrete inputs worked through the extractor and the header scan. */
module Scenarios {
  import opened Bytes
  import opened Wrappers
  import opened DottedQuad
  import ClientIp

  // The inputs, as the bytes of their ASCII text.
  const LongLastRun: seq<byte> := [49, 46, 50, 46, 51, 46, 52, 53, 54, 55]  // "1.2.3.4567"
  const LongLastRunMatch: seq<byte> := [49, 46, 50, 46, 51, 46, 52, 53, 54]  // "1.2.3.456"
  const LongFirstRun: seq<byte> := [49, 50, 51, 52, 46, 53, 46, 54, 46, 55]  // "1234.5.6.7"
  const LongFirstRunMatch: seq<byte> := [50, 51, 52, 46, 53, 46, 54, 46, 55]  // "234.5.6.7"
  const AllNines: seq<byte> := [57, 57, 57, 46, 57, 57, 57, 46, 57, 57, 57, 46, 57, 57, 57]  // "999.999.999.999"
  const Ipv6Literal: seq<byte> := [50, 48, 48, 49, 58, 100, 98, 56, 58, 58, 49]  // "2001:db8::1"
  const ForwardedList: seq<byte> := [50, 48, 51, 46, 48, 46, 49, 49, 51, 46, 53, 44, 32, 49, 48, 46, 48, 46, 48, 46, 49]  // "203.0.113.5, 10.0.0.1"
  const ForwardedFirst: seq<byte> := [50, 48, 51, 46, 48, 46, 49, 49, 51, 46, 53]  // "203.0.113.5"

  /** The last group takes at most three leading digits of its run: "1.2.3.4567" gives "1.2.3.456". */
  lemma LastGroupTruncated()
    ensures Find(LongLastRun) == LongLastRunMatch
  {
    var s: seq<byte> := LongLastRun;
    assert s[0..9] == LongLastRunMatch;
    var sp := Split(1, 1, 1, 3);
    assert Admits(s, 0, sp);
    MatchAtDominates(s, 0, sp);
    assert Locate(s, 0) == Some((0, sp));
  }

  /** A leading run of four digits cannot start a match: "1234.5.6.7" gives "234.5.6.7". */
  lemma MatchStartsInsideRun()
    ensures Find(LongFirstRun) == LongFirstRunMatch
  {
    var s: seq<byte> := LongFirstRun;
    assert s[1..10] == LongFirstRunMatch;
    var sp := Split(3, 1, 1, 1);
    RunIsForced(s, 0, 4);
    assert MatchAt(s, 0) == None;
    assert Admits(s, 1, sp);
    MatchAtDominates(s, 1, sp);
    assert Locate(s, 1) == Some((1, sp));
  }

  /** Group values above 255 are not rejected: "999.999.999.999" is found whole. */
  lemma GroupsAreNotRangeChecked()
    ensures Find(AllNines) == AllNines
  {
    var s: seq<byte> := AllNines;
    assert s[0..15] == AllNines;
    var sp := Split(3, 3, 3, 3);
    assert Admits(s, 0, sp);
    MatchAtDominates(s, 0, sp);
    assert Locate(s, 0) == Some((0, sp));
  }

  /** An IPv6-only value, "2001:db8::1", yields the empty string. */
  lemma Ipv6Ignored()
    ensures Find(Ipv6Literal) == []
  {
    assert forall k :: 0 <= k < |Ipv6Literal| ==> Ipv6Literal[k] != Dot;
    WithoutDotNothingFound(Ipv6Literal);
  }

  /** The first address of a list: "203.0.113.5, 10.0.0.1" gives "203.0.113.5". */
  lemma FirstOfList()
    ensures Find(ForwardedList) == ForwardedFirst
  {
    var s: seq<byte> := ForwardedList;
    assert s[0..11] == ForwardedFirst;
    var sp := Split(3, 1, 3, 1);
    assert Admits(s, 0, sp);
    RunIsForced(s, 10, 1);
    MatchAtDominates(s, 0, sp);
    assert Locate(s, 0) == Some((0, sp));
  }

  /**
   * With trusted proxies, a request whose only forwarding header is
   * `X-Forwarded-For: 203.0.113.5, 10.0.0.1` resolves to "203.0.113.5",
   * whatever the connection address.
   */
  lemma ForwardedForList(connAddr: seq<byte>)
    ensures ClientIp.ResolveClientIP(map["X-Forwarded-For" := ForwardedList], ClientIp.TrustAll, connAddr)
            == ForwardedFirst
  {
    var headers: ClientIp.Headers := map["X-Forwarded-For" := ForwardedList];
    assert ClientIp.Peek(headers, ClientIp.PossibleHeaders[0]) == [];
    assert ClientIp.DecidesAt(headers, 1);
    ClientIp.FirstUsableHeaderDecides(headers, connAddr, 1);
    FirstOfList();
  }

  /**
   * With trusted proxies but no forwarding header and an empty connection
   * address, the result is "0.0.0.0".
   */
  lemma NothingKnownGivesZero()
    ensures ClientIp.ResolveClientIP(map[], ClientIp.TrustAll, []) == ClientIp.ZeroAddress
  {
    ClientIp.ShortConnectionGivesZero(map[], ClientIp.TrustAll, []);
  }
}
