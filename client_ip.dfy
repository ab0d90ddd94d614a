/**
 * Client-IP discovery (`IP` in geoip.go). The request context is replaced by
 * three inputs: the request headers (name to raw bytes, an absent header
 * reads as empty), the application's proxy-header setting, and the address of
 * the connection.
 */
module ClientIp {
  import opened Bytes
  import DottedQuad
  import Wrappers

  /** The proxy-header setting under which forwarding headers are believed. */
  const TrustAll: string := "*"

  /** `possibleHeaderes`, in priority order. */
  const PossibleHeaders: seq<string> := [
    "X-Original-Forwarded-For",
    "X-Forwarded-For",
    "X-Real-Ip",
    "X-Client-Ip",
    "Forwarded-For",
    "Forwarded",
    "Remote-Addr",
    "Client-Ip",
    "CF-Connecting-IP"
  ]

  /** Substituted for a connection address of at most three bytes. */
  const ZeroAddress: seq<byte> := [48, 46, 48, 46, 48, 46, 48]  // "0.0.0.0"

  type Headers = map<string, seq<byte>>

  /** `Header.Peek`: the raw value, empty when the header is absent. */
  function Peek(headers: Headers, name: string): (r: seq<byte>)
    ensures name in headers ==> r == headers[name]
    ensures name !in headers ==> r == []
  {
    if name in headers then headers[name] else []
  }

  /** A header value is used only when it is longer than three bytes. */
  predicate IsUsable(value: seq<byte>) {
    |value| > 3
  }

  /** Header `PossibleHeaders[k]` is the one that decides the result. */
  ghost predicate DecidesAt(headers: Headers, k: nat) {
    && k < |PossibleHeaders|
    && IsUsable(Peek(headers, PossibleHeaders[k]))
    && forall j :: 0 <= j < k ==> !IsUsable(Peek(headers, PossibleHeaders[j]))
  }

  /** No forwarding header is usable. */
  ghost predicate NoneUsable(headers: Headers) {
    forall k :: 0 <= k < |PossibleHeaders| ==> !IsUsable(Peek(headers, PossibleHeaders[k]))
  }

  /** The connection address, or `0.0.0.0` when it has at most three bytes. */
  function Fallback(connAddr: seq<byte>): (r: seq<byte>)
    ensures IsUsable(r)
  {
    if IsUsable(connAddr) then connAddr else ZeroAddress
  }

  /**
   * The value the extractor runs on, choosing among `names` in order: it is
   * longer than three bytes, and it is the fallback address or the value of
   * one of `names`, never of another header.
   */
  function Candidate(headers: Headers, names: seq<string>, connAddr: seq<byte>): (r: seq<byte>)
    ensures IsUsable(r)
    ensures r == Fallback(connAddr) || exists k :: 0 <= k < |names| && r == Peek(headers, names[k])
  {
    if names == [] then Fallback(connAddr)
    else if IsUsable(Peek(headers, names[0])) then Peek(headers, names[0])
    else
      var rest := Candidate(headers, names[1..], connAddr);
      assert rest != Fallback(connAddr) ==> exists k :: 0 <= k < |names| && rest == Peek(headers, names[k]) by {
        if rest != Fallback(connAddr) {
          var k :| 0 <= k < |names[1..]| && rest == Peek(headers, names[1..][k]);
          assert names[1..][k] == names[k + 1];
        }
      }
      rest
  }

  /**
   * `r` was extracted from a value the scan may read: the connection
   * address, `0.0.0.0`, or one of the listed forwarding headers.
   */
  ghost predicate FromListedSource(r: seq<byte>, headers: Headers, connAddr: seq<byte>) {
    || DottedQuad.IsSliceOf(r, connAddr)
    || DottedQuad.IsSliceOf(r, ZeroAddress)
    || exists k :: 0 <= k < |PossibleHeaders| && DottedQuad.IsSliceOf(r, Peek(headers, PossibleHeaders[k]))
  }

  /**
   * The address `IP` returns, as a function of its inputs. It is empty, or a
   * dotted quad cut out of the connection address, `0.0.0.0`, or a listed
   * forwarding header (one of those only when proxies are trusted).
   */
  function ResolveClientIP(headers: Headers, proxyHeader: string, connAddr: seq<byte>): (r: seq<byte>)
    ensures r == [] || DottedQuad.IsDottedQuad(r)
    ensures r == [] || FromListedSource(r, headers, connAddr)
    ensures proxyHeader != TrustAll ==>
      r == [] || DottedQuad.IsSliceOf(r, connAddr) || DottedQuad.IsSliceOf(r, ZeroAddress)
  {
    var c := if proxyHeader == TrustAll then Candidate(headers, PossibleHeaders, connAddr) else Fallback(connAddr);
    DottedQuad.Find(c)
  }

  /** `IP`: scan the forwarding headers when trusted, else use the connection address. */
  method IP(headers: Headers, proxyHeader: string, connAddr: seq<byte>) returns (ip: seq<byte>)
    ensures ip == ResolveClientIP(headers, proxyHeader, connAddr)
    ensures proxyHeader == TrustAll ==>
      forall k: nat :: DecidesAt(headers, k) ==> ip == DottedQuad.Find(Peek(headers, PossibleHeaders[k]))
    ensures proxyHeader != TrustAll || NoneUsable(headers) ==> ip == DottedQuad.Find(Fallback(connAddr))
  {
    if proxyHeader == TrustAll {
      var i := 0;
      while i < |PossibleHeaders|
        invariant 0 <= i <= |PossibleHeaders|
        invariant forall j :: 0 <= j < i ==> !IsUsable(Peek(headers, PossibleHeaders[j]))
      {
        var headerValue := Peek(headers, PossibleHeaders[i]);
        if |headerValue| > 3 {
          FirstUsableDecides(headers, PossibleHeaders, i, connAddr);
          OnlyOneDecides(headers, i);
          return DottedQuad.Find(headerValue);
        }
        i := i + 1;
      }
      NoneUsableFallsBack(headers, PossibleHeaders, connAddr);
    }
    var headerValue := connAddr;
    if |headerValue| <= 3 {
      headerValue := ZeroAddress;
    }
    ip := DottedQuad.Find(headerValue);
  }

  // ---------------------------------------------------------------------
  // Properties of the header scan

  /** The first usable header among `names` is the candidate. */
  lemma {:induction false} FirstUsableDecides(headers: Headers, names: seq<string>, k: nat, connAddr: seq<byte>)
    requires k < |names| && IsUsable(Peek(headers, names[k]))
    requires forall j :: 0 <= j < k ==> !IsUsable(Peek(headers, names[j]))
    ensures Candidate(headers, names, connAddr) == Peek(headers, names[k])
    decreases k
  {
    if k > 0 {
      assert !IsUsable(Peek(headers, names[0]));
      FirstUsableDecides(headers, names[1..], k - 1, connAddr);
    }
  }

  /** With no usable header among `names`, the candidate is the fallback address. */
  lemma {:induction false} NoneUsableFallsBack(headers: Headers, names: seq<string>, connAddr: seq<byte>)
    requires forall k :: 0 <= k < |names| ==> !IsUsable(Peek(headers, names[k]))
    ensures Candidate(headers, names, connAddr) == Fallback(connAddr)
    decreases |names|
  {
    if names != [] {
      assert !IsUsable(Peek(headers, names[0]));
      NoneUsableFallsBack(headers, names[1..], connAddr);
    }
  }

  /** At most one header decides. */
  lemma OnlyOneDecides(headers: Headers, k: nat)
    requires DecidesAt(headers, k)
    ensures forall j: nat :: DecidesAt(headers, j) ==> j == k
  {
  }

  /**
   * With trusted proxies, headers are examined in priority order and the
   * first usable one decides, even when nothing can be extracted from it.
   */
  lemma FirstUsableHeaderDecides(headers: Headers, connAddr: seq<byte>, k: nat)
    requires DecidesAt(headers, k)
    ensures ResolveClientIP(headers, TrustAll, connAddr) == DottedQuad.Find(Peek(headers, PossibleHeaders[k]))
  {
    FirstUsableDecides(headers, PossibleHeaders, k, connAddr);
  }

  /** Headers after the deciding one are never consulted. */
  lemma LaterHeadersIgnored(h1: Headers, h2: Headers, connAddr: seq<byte>, k: nat)
    requires DecidesAt(h1, k)
    requires forall j :: 0 <= j <= k ==> Peek(h1, PossibleHeaders[j]) == Peek(h2, PossibleHeaders[j])
    ensures ResolveClientIP(h1, TrustAll, connAddr) == ResolveClientIP(h2, TrustAll, connAddr)
  {
    assert DecidesAt(h2, k);
    FirstUsableHeaderDecides(h1, connAddr, k);
    FirstUsableHeaderDecides(h2, connAddr, k);
  }

  /**
   * Without trust, or when no header is usable, the connection address
   * (or `0.0.0.0`) is used and the headers do not matter.
   */
  lemma ConnectionAddressUsed(headers: Headers, proxyHeader: string, connAddr: seq<byte>)
    requires proxyHeader != TrustAll || NoneUsable(headers)
    ensures ResolveClientIP(headers, proxyHeader, connAddr) == DottedQuad.Find(Fallback(connAddr))
  {
    if proxyHeader == TrustAll {
      NoneUsableFallsBack(headers, PossibleHeaders, connAddr);
    }
  }

  /** `0.0.0.0` is itself a dotted quad, found whole. */
  lemma ZeroAddressFound()
    ensures DottedQuad.Find(ZeroAddress) == ZeroAddress
  {
    var sp := DottedQuad.Split(1, 1, 1, 1);
    assert DottedQuad.Admits(ZeroAddress, 0, sp);
    DottedQuad.MatchAtDominates(ZeroAddress, 0, sp);
    assert DottedQuad.Locate(ZeroAddress, 0) == Wrappers.Some((0, sp));
  }

  /** A connection address of at most three bytes yields exactly `0.0.0.0`. */
  lemma ShortConnectionGivesZero(headers: Headers, proxyHeader: string, connAddr: seq<byte>)
    requires proxyHeader != TrustAll || NoneUsable(headers)
    requires |connAddr| <= 3
    ensures ResolveClientIP(headers, proxyHeader, connAddr) == ZeroAddress
  {
    ConnectionAddressUsed(headers, proxyHeader, connAddr);
    ZeroAddressFound();
  }

  /**
   * The result is empty or a contiguous dotted quad of the chosen candidate,
   * and it is the leftmost-first match there.
   */
  lemma ResultIsDottedQuad(headers: Headers, proxyHeader: string, connAddr: seq<byte>)
    ensures var c := if proxyHeader == TrustAll then Candidate(headers, PossibleHeaders, connAddr) else Fallback(connAddr);
      var r := ResolveClientIP(headers, proxyHeader, connAddr);
      && (r == [] || (DottedQuad.IsSliceOf(r, c) && DottedQuad.IsDottedQuad(r)))
      && (r == [] <==> forall j: nat, sp :: !DottedQuad.Admits(c, j, sp))
      && forall i: nat, sp :: DottedQuad.LeftmostFirst(c, i, sp) ==> r == c[i..DottedQuad.End(i, sp)]
  {
    var c := if proxyHeader == TrustAll then Candidate(headers, PossibleHeaders, connAddr) else Fallback(connAddr);
    DottedQuad.FindIsLeftmostFirst(c);
  }
}
