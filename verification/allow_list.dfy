/** The source-address guard of the UDP server: with the allow-all flag set,
    or with an empty list, every sender is accepted; otherwise only a sender
    whose printed address is exactly one of the listed strings. */
module AllowList {

  /** The `for` loop of `is_ip_allowed`: scans the entries front to back for
      one that is the same string as `ip`. */
  function Listed(entries: seq<string>, ip: string): (found: bool)
    ensures found <==> exists i :: 0 <= i < |entries| && entries[i] == ip
  {
    if entries == [] then false
    else if entries[0] == ip then true
    else Listed(entries[1..], ip)
  }

  /** `UdpserverComponent::is_ip_allowed` over the component's policy. */
  function IsIpAllowed(allowAll: bool, allowedIps: seq<string>, ip: string): (allowed: bool)
    ensures allowed <==> allowAll || allowedIps == [] || ip in allowedIps
  {
    if allowAll || allowedIps == [] then true
    else Listed(allowedIps, ip)
  }

  lemma OpenPolicyAllowsEveryone(allowAll: bool, allowedIps: seq<string>, ip: string)
    requires allowAll || allowedIps == []
    ensures IsIpAllowed(allowAll, allowedIps, ip)
  {
  }

  /** With a closed policy and a non-empty list, a sender passes exactly when
      its address string is an entry: no prefix, case or subnet matching. */
  lemma ClosedPolicyExactMatch(allowedIps: seq<string>, ip: string)
    requires allowedIps != []
    ensures IsIpAllowed(false, allowedIps, ip) <==> ip in allowedIps
  {
  }

  /** Worked cases: a longer address that extends a listed one, and a
      different host, are both refused. */
  lemma AllowListExamples()
    ensures IsIpAllowed(false, ["10.0.0.5"], "10.0.0.5")
    ensures !IsIpAllowed(false, ["10.0.0.5"], "10.0.0.9")
    ensures !IsIpAllowed(false, ["10.0.0.5"], "10.0.0.50")
    ensures IsIpAllowed(true, ["10.0.0.5"], "10.0.0.9")
    ensures IsIpAllowed(false, [], "10.0.0.9")
  {
  }
}
