/**
 * Active-interface selection (core/network_utils.py).
 *
 * Tier 1 scans the OS interface list with a literal string heuristic
 * (skip records without ip or name, skip descriptions holding an exclusion
 * keyword, keep addresses with one of nine private prefixes) and returns the
 * first kept record. Tier 2 falls back to the default route. The interface
 * list, the routing-table query and the address lookup are foreign calls and
 * enter the model as parameters.
 */
module NetworkUtils {

  import opened PyBuiltins

  /** One record of the OS interface list; a key the record lacks is None. */
  datatype Iface = Iface(name: Option<string>, description: Option<string>, ip: Option<string>)

  /** The (interface name, IPv4 address) pair the selector answers; None is Python's None. */
  datatype NetInfo = NetInfo(name: Option<string>, ip: Option<string>)

  /** What the routing table answers for 0.0.0.0/0: egress interface, source address, gateway. */
  datatype RouteEntry = RouteEntry(iface: string, src: string, gateway: string)

  const ExclusionKeywords: seq<string> := ["loopback", "vpn", "tap", "virtual", "teredo", "isatap"]

  /** The prefix list exactly as written: the bare "172.2" also admits 172.2.x, 172.200.x, ... */
  const PrivatePrefixes: seq<string> :=
    ["192.168.", "10.", "172.16.", "172.17.", "172.18.", "172.19.", "172.2", "172.30.", "172.31."]

  /** `iface.get('description', '')`. */
  function Description(iface: Iface): string
  {
    match iface.description
    case None => ""
    case Some(d) => d
  }

  /** `any(keyword in description for keyword in EXCLUSION_KEYWORDS)`. */
  function Excluded(description: string): (r: bool)
    ensures r <==> exists k, i :: 0 <= k < |ExclusionKeywords| && 0 <= i <= |description|
                                && ExclusionKeywords[k] <= description[i..]
  {
    ContainsOccursForAll(description);
    exists k :: 0 <= k < |ExclusionKeywords| && Contains(description, ExclusionKeywords[k])
  }

  /** `ip_address.startswith((...))` over the nine literal prefixes. */
  function HasPrivatePrefix(ip: string): (r: bool)
    ensures r ==> "10." <= ip || "192.168." <= ip || "172." <= ip
    ensures "10." <= ip || "192.168." <= ip ==> r
  {
    assert PrivatePrefixes[0] == "192.168." && PrivatePrefixes[1] == "10.";
    exists k :: 0 <= k < |PrivatePrefixes| && PrivatePrefixes[k] <= ip
  }

  /** A record survives every test of the Tier-1 loop body. */
  function Qualifies(iface: Iface): (r: bool)
    ensures r ==> Truthy(iface.name) && Truthy(iface.ip)
    ensures r ==> "10." <= iface.ip.value || "192.168." <= iface.ip.value || "172." <= iface.ip.value
    ensures r ==> forall k :: 0 <= k < |ExclusionKeywords| ==> !Contains(Lower(Description(iface)), ExclusionKeywords[k])
  {
    && Truthy(iface.ip)
    && Truthy(iface.name)
    && !Excluded(Lower(Description(iface)))
    && HasPrivatePrefix(iface.ip.value)
  }

  function Pair(iface: Iface): (string, string)
    requires Qualifies(iface)
  {
    (iface.name.value, iface.ip.value)
  }

  /** The list `candidate_interfaces` holds after the loop has seen `ifaces`. */
  function Candidates(ifaces: seq<Iface>): seq<(string, string)>
  {
    if ifaces == [] then []
    else
      var last := ifaces[|ifaces| - 1];
      Candidates(ifaces[..|ifaces| - 1]) + (if Qualifies(last) then [Pair(last)] else [])
  }

  /** Reference definition of the Tier-1 choice: the index of the first qualifying record. */
  function FirstQualifying(ifaces: seq<Iface>): (r: Option<nat>)
    ensures r.Some? ==> r.value < |ifaces| && Qualifies(ifaces[r.value])
    ensures r.Some? ==> forall j :: 0 <= j < r.value ==> !Qualifies(ifaces[j])
    ensures r.None? ==> forall j :: 0 <= j < |ifaces| ==> !Qualifies(ifaces[j])
  {
    if ifaces == [] then None
    else if Qualifies(ifaces[0]) then Some(0)
    else match FirstQualifying(ifaces[1..])
      case None => None
      case Some(i) => Some(i + 1)
  }

  /** `_get_default_route_info`: `route` None means the routing query raised, `addrOf` None means `get_if_addr` raised. */
  function DefaultRouteInfo(route: Option<RouteEntry>, addrOf: string -> Option<string>): (r: NetInfo)
    ensures r.name.Some? <==> route.Some? && addrOf(route.value.iface).Some?
    ensures r.name.None? ==> r.ip.None?
    ensures r.name.Some? ==> r.name.value == route.value.iface && r.ip == addrOf(route.value.iface)
  {
    match route
    case None => NetInfo(None, None)
    case Some(entry) =>
      match addrOf(entry.iface)
      case None => NetInfo(None, None)
      case Some(ip) => NetInfo(Some(entry.iface), Some(ip))
  }

  /** The answer of `get_active_network_info`, stated through the first qualifying record. */
  function ActiveNetworkInfo(ifaces: seq<Iface>, route: Option<RouteEntry>, addrOf: string -> Option<string>): NetInfo
  {
    match FirstQualifying(ifaces)
    case Some(i) => NetInfo(Some(ifaces[i].name.value), Some(ifaces[i].ip.value))
    case None => DefaultRouteInfo(route, addrOf)
  }

  /** The Tier-1 loop: one pass over the list, skipping with `continue`, appending survivors. */
  method CollectCandidates(ifaces: seq<Iface>) returns (candidates: seq<(string, string)>)
    ensures candidates == Candidates(ifaces)
  {
    candidates := [];
    var i := 0;
    while i < |ifaces|
      invariant 0 <= i <= |ifaces|
      invariant candidates == Candidates(ifaces[..i])
    {
      var iface := ifaces[i];
      assert ifaces[..i + 1][..i] == ifaces[..i];
      if !Truthy(iface.ip) || !Truthy(iface.name) {
      } else if Excluded(Lower(Description(iface))) {
      } else if HasPrivatePrefix(iface.ip.value) {
        candidates := candidates + [(iface.name.value, iface.ip.value)];
      }
      i := i + 1;
    }
    assert ifaces[..i] == ifaces;
  }

  /** `get_active_network_info`: Tier 1, then the default-route fallback. */
  method GetActiveNetworkInfo(ifaces: seq<Iface>, route: Option<RouteEntry>, addrOf: string -> Option<string>)
    returns (r: NetInfo)
    ensures r == ActiveNetworkInfo(ifaces, route, addrOf)
    ensures FirstQualifying(ifaces).Some? ==>
      r.name.Some? && r.name.value != "" && r.ip.Some? && HasPrivatePrefix(r.ip.value)
    ensures FirstQualifying(ifaces).None? ==> r == DefaultRouteInfo(route, addrOf)
  {
    var candidates := CollectCandidates(ifaces);
    CandidatesHeadIsFirst(ifaces);
    if candidates != [] {
      var (name, ip) := candidates[0];
      r := NetInfo(Some(name), Some(ip));
    } else {
      r := DefaultRouteInfo(route, addrOf);
    }
  }

  // ---------------------------------------------------------------------
  // Properties of the selector
  // ---------------------------------------------------------------------

  /** The filter is empty exactly when no record qualifies. */
  lemma {:induction false} NoCandidates(ifaces: seq<Iface>)
    ensures Candidates(ifaces) == [] <==> forall j :: 0 <= j < |ifaces| ==> !Qualifies(ifaces[j])
  {
    if ifaces != [] {
      var front := ifaces[..|ifaces| - 1];
      NoCandidates(front);
      assert forall j :: 0 <= j < |front| ==> front[j] == ifaces[j];
    }
  }

  /** The head of the filtered list is the record `FirstQualifying` finds. */
  lemma {:induction false} CandidatesHeadIsFirst(ifaces: seq<Iface>)
    ensures Candidates(ifaces) != [] <==> FirstQualifying(ifaces).Some?
    ensures FirstQualifying(ifaces).Some? ==> Candidates(ifaces)[0] == Pair(ifaces[FirstQualifying(ifaces).value])
  {
    NoCandidates(ifaces);
    if ifaces != [] {
      var n := |ifaces| - 1;
      var front := ifaces[..n];
      assert forall j :: 0 <= j < n ==> front[j] == ifaces[j];
      CandidatesHeadIsFirst(front);
      match FirstQualifying(front)
      case Some(i) =>
        FirstQualifyingIsLeast(ifaces, i);
      case None =>
        NoCandidates(front);
        if Qualifies(ifaces[n]) {
          FirstQualifyingIsLeast(ifaces, n);
        }
    }
  }

  /** Every Tier-1 candidate comes from a qualifying record of the input. */
  lemma {:induction false} CandidatesSound(ifaces: seq<Iface>, k: nat)
    requires k < |Candidates(ifaces)|
    ensures exists i :: 0 <= i < |ifaces| && Qualifies(ifaces[i]) && Candidates(ifaces)[k] == Pair(ifaces[i])
  {
    var front := ifaces[..|ifaces| - 1];
    var last := |ifaces| - 1;
    if k < |Candidates(front)| {
      CandidatesSound(front, k);
      var i :| 0 <= i < |front| && Qualifies(front[i]) && Candidates(front)[k] == Pair(front[i]);
      assert front[i] == ifaces[i];
    } else {
      assert Qualifies(ifaces[last]) && Candidates(ifaces)[k] == Pair(ifaces[last]);
    }
  }

  /** Records after the first qualifying one never change the answer. */
  lemma {:induction false} LaterInterfacesIgnored(ifaces: seq<Iface>, more: seq<Iface>,
                                                  route: Option<RouteEntry>, addrOf: string -> Option<string>)
    requires FirstQualifying(ifaces).Some?
    ensures ActiveNetworkInfo(ifaces + more, route, addrOf) == ActiveNetworkInfo(ifaces, route, addrOf)
  {
    var i := FirstQualifying(ifaces).value;
    var all := ifaces + more;
    assert all[i] == ifaces[i];
    FirstQualifyingIsLeast(all, i);
  }

  /** Whatever index is qualifying and preceded only by non-qualifying records is the one found. */
  lemma {:induction false} FirstQualifyingIsLeast(ifaces: seq<Iface>, i: nat)
    requires i < |ifaces| && Qualifies(ifaces[i])
    requires forall j :: 0 <= j < i ==> !Qualifies(ifaces[j])
    ensures FirstQualifying(ifaces) == Some(i)
  {
    if i > 0 {
      var rest := ifaces[1..];
      assert !Qualifies(ifaces[0]);
      assert forall j :: 0 <= j < i - 1 ==> rest[j] == ifaces[j + 1];
      FirstQualifyingIsLeast(rest, i - 1);
    }
  }

  /** When some record qualifies, the routing table and the address lookup are not consulted. */
  lemma RouteNotConsulted(ifaces: seq<Iface>, route1: Option<RouteEntry>, addrOf1: string -> Option<string>,
                          route2: Option<RouteEntry>, addrOf2: string -> Option<string>)
    requires exists i :: 0 <= i < |ifaces| && Qualifies(ifaces[i])
    ensures ActiveNetworkInfo(ifaces, route1, addrOf1) == ActiveNetworkInfo(ifaces, route2, addrOf2)
  {
  }

  /** When no record qualifies, the answer is the default-route answer. */
  lemma FallbackWhenNoneQualifies(ifaces: seq<Iface>, route: Option<RouteEntry>, addrOf: string -> Option<string>)
    requires forall j :: 0 <= j < |ifaces| ==> !Qualifies(ifaces[j])
    ensures ActiveNetworkInfo(ifaces, route, addrOf) == DefaultRouteInfo(route, addrOf)
  {
  }

  /** A record without an ip or without a name is never chosen by Tier 1. */
  lemma MissingIpOrNameNeverChosen(ifaces: seq<Iface>, j: nat)
    requires j < |ifaces| && (!Truthy(ifaces[j].ip) || !Truthy(ifaces[j].name))
    ensures FirstQualifying(ifaces) != Some(j)
  {
  }

  /** A description holding an exclusion keyword, in any letter case, disqualifies the record. */
  lemma KeywordExcludes(iface: Iface, k: nat)
    requires k < |ExclusionKeywords| && Contains(Lower(Description(iface)), ExclusionKeywords[k])
    ensures !Qualifies(iface)
  {
  }

  /** The interface name is never screened against the keywords: any two non-empty names qualify alike. */
  lemma NameNotScreened(iface: Iface, other: string)
    requires Truthy(iface.name) && other != ""
    ensures Qualifies(iface) == Qualifies(iface.(name := Some(other)))
  {
  }

  /** The bare "172.2" prefix admits public 172.200.x and 172.2.x addresses. */
  lemma BarePrefixAdmitsPublicRanges()
    ensures HasPrivatePrefix("172.200.10.1")
    ensures HasPrivatePrefix("172.2.0.1")
    ensures !HasPrivatePrefix("172.15.0.1")
  {
    assert PrivatePrefixes[6] <= "172.200.10.1";
    assert PrivatePrefixes[6] <= "172.2.0.1";
    var ip := "172.15.0.1";
    forall k | 0 <= k < |PrivatePrefixes| ensures !(PrivatePrefixes[k] <= ip) {
      if k < 2 { assert PrivatePrefixes[k][1] != ip[1]; }
      else if k == 6 { assert PrivatePrefixes[k][4] != ip[4]; }
      else { assert PrivatePrefixes[k][5] != ip[5]; }
    }
  }

  /** A VPN adapter listed before the Wi-Fi adapter is skipped; the Wi-Fi adapter is chosen. */
  lemma VpnListedFirstIsSkipped(route: Option<RouteEntry>, addrOf: string -> Option<string>)
    ensures ActiveNetworkInfo([Iface(Some("Ethernet 3"), Some("Cisco AnyConnect VPN Adapter"), Some("10.8.0.2")),
                               Iface(Some("Wi-Fi"), Some("Intel Wireless-AC 9560"), Some("192.168.1.34"))],
                              route, addrOf)
            == NetInfo(Some("Wi-Fi"), Some("192.168.1.34"))
  {
    var vpn := Iface(Some("Ethernet 3"), Some("Cisco AnyConnect VPN Adapter"), Some("10.8.0.2"));
    var wifi := Iface(Some("Wi-Fi"), Some("Intel Wireless-AC 9560"), Some("192.168.1.34"));
    VpnAdapterExcluded();
    assert Excluded(Lower(Description(vpn)));
    assert PrivatePrefixes[0] <= wifi.ip.value;
    assert !Excluded(Lower(Description(wifi))) by {
      NoKeywordInWifi();
    }
    assert [vpn, wifi][1..] == [wifi];
  }

  lemma VpnAdapterExcluded()
    ensures Contains(Lower("Cisco AnyConnect VPN Adapter"), ExclusionKeywords[1])
  {
    var d := Lower("Cisco AnyConnect VPN Adapter");
    assert d[17..20] == "vpn";
    assert ExclusionKeywords[1] <= d[17..];
    ContainsOccurs(d, ExclusionKeywords[1]);
  }

  /** A U+212A KELVIN SIGN standing for the `k` of "loopback" is folded as `str.lower()` folds it. */
  lemma KelvinSignFolded()
    ensures !Qualifies(Iface(Some("eth0"), Some("Loopbac\U{212A}"), Some("10.0.0.5")))
  {
    var d := Lower("Loopbac\U{212A}");
    assert d == "loopback";
    assert ExclusionKeywords[0] <= d[0..];
  }

  lemma {:induction false} AbsentCharNotContained(s: string, sub: string, c: char)
    requires c in sub && c !in s
    ensures !Contains(s, sub)
  {
    if s != [] {
      AbsentCharNotContained(s[1..], sub, c);
    }
  }

  /** A description lacking the letters k, v, p and d holds none of the keywords. */
  lemma NotExcludedWithoutKeyLetters(d: string)
    requires 'k' !in d && 'v' !in d && 'p' !in d && 'd' !in d
    ensures !Excluded(d)
  {
    AbsentCharNotContained(d, ExclusionKeywords[0], 'k');
    AbsentCharNotContained(d, ExclusionKeywords[1], 'v');
    AbsentCharNotContained(d, ExclusionKeywords[2], 'p');
    AbsentCharNotContained(d, ExclusionKeywords[3], 'v');
    AbsentCharNotContained(d, ExclusionKeywords[4], 'd');
    AbsentCharNotContained(d, ExclusionKeywords[5], 'p');
  }

  lemma NoKeywordInWifi()
    ensures !Excluded(Lower("Intel Wireless-AC 9560"))
  {
    var s := "Intel Wireless-AC 9560";
    var d := Lower(s);
    forall c | c in "kvpd" ensures c !in d {
      forall i | 0 <= i < |s| ensures d[i] != c {
        assert s[i] != c && s[i] as int != c as int - 32;
      }
    }
    NotExcludedWithoutKeyLetters(d);
  }
}
