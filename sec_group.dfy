/** src/api-calls/sec-group.ts: security groups and their rules, each rule a
    port text and the concatenated list of its peers. */
module SecGroups {
  import opened Common

  // Raw SDK shapes (DescribeSecurityGroups).
  datatype IpRange = IpRange(cidrIp: Option<string>)
  datatype Ipv6Range = Ipv6Range(cidrIpv6: Option<string>)
  datatype PrefixListId = PrefixListId(prefixListId: Option<string>)
  datatype UserIdGroupPair = UserIdGroupPair(groupId: Option<string>)
  datatype IpPermission = IpPermission(
    fromPort: Option<int>,
    toPort: Option<int>,
    ipRanges: Option<seq<IpRange>>,
    ipv6Ranges: Option<seq<Ipv6Range>>,
    prefixListIds: Option<seq<PrefixListId>>,
    userIdGroupPairs: Option<seq<UserIdGroupPair>>)
  datatype SecurityGroup = SecurityGroup(
    groupId: Option<string>,
    vpcId: Option<string>,
    groupName: Option<string>,
    description: Option<string>,
    ipPermissions: Option<seq<IpPermission>>,
    ipPermissionsEgress: Option<seq<IpPermission>>)

  /** One rule. `peers` is the `from` list of an ingress rule and the `to`
      list of an egress rule; both are built the same way. */
  datatype RuleModel = RuleModel(port: string, peers: seq<string>)
  datatype SecGroupModel = SecGroupModel(
    id: string,
    vpcId: string,
    name: Option<string>,
    description: Option<string>,
    ingress: seq<RuleModel>,
    egress: seq<RuleModel>)

  /** sec-group.ts:31: one port as text when both ends agree, "-1" when both
      are absent, otherwise "From-To" with an absent end written "undefined". */
  function PortText(rule: IpPermission): (r: string)
    ensures rule.fromPort.None? && rule.toPort.None? ==> r == "-1"
    ensures rule.fromPort.Some? && rule.fromPort == rule.toPort ==> r == NumText(rule.fromPort.value)
    ensures rule.fromPort != rule.toPort ==> r == OptNumText(rule.fromPort) + "-" + OptNumText(rule.toPort)
  {
    if rule.fromPort == rule.toPort then
      (if rule.fromPort.Some? then NumText(rule.fromPort.value) else "-1")
    else OptNumText(rule.fromPort) + "-" + OptNumText(rule.toPort)
  }

  function V4Peers(rule: IpPermission): seq<string> {
    MapOpt(rule.ipRanges, (x: IpRange) => x.cidrIp.GetOr("?v4cidr"))
  }

  function V6Peers(rule: IpPermission): seq<string> {
    MapOpt(rule.ipv6Ranges, (x: Ipv6Range) => x.cidrIpv6.GetOr("?v6cidr"))
  }

  function PrefixListPeers(rule: IpPermission): seq<string> {
    MapOpt(rule.prefixListIds, (x: PrefixListId) => x.prefixListId.GetOr("?prefixlist"))
  }

  function GroupPeers(rule: IpPermission): seq<string> {
    MapOpt(rule.userIdGroupPairs, (x: UserIdGroupPair) => x.groupId.GetOr("?secgroup"))
  }

  /** The peers in their fixed order: IPv4 ranges, IPv6 ranges, prefix lists,
      then peer groups, each with its own sentinel for a missing value. */
  function Peers(rule: IpPermission): (r: seq<string>)
    ensures |r| == |V4Peers(rule)| + |V6Peers(rule)| + |PrefixListPeers(rule)| + |GroupPeers(rule)|
    ensures r[..|V4Peers(rule)|] == V4Peers(rule)
    ensures r[|V4Peers(rule)|..|V4Peers(rule)| + |V6Peers(rule)|] == V6Peers(rule)
    ensures r[|V4Peers(rule)| + |V6Peers(rule)|..|r| - |GroupPeers(rule)|] == PrefixListPeers(rule)
    ensures r[|r| - |GroupPeers(rule)|..] == GroupPeers(rule)
  {
    V4Peers(rule) + V6Peers(rule) + PrefixListPeers(rule) + GroupPeers(rule)
  }

  function MapRule(rule: IpPermission): (r: RuleModel)
    ensures r.port == PortText(rule) && r.peers == Peers(rule)
  {
    RuleModel(PortText(rule), Peers(rule))
  }

  function MapSecurityGroup(sg: SecurityGroup): (r: SecGroupModel)
    ensures r.id == sg.groupId.GetOr("unknown-sec-group") && r.vpcId == sg.vpcId.GetOr("unknown-vpc")
    ensures r.name == sg.groupName && r.description == sg.description
    ensures sg.ipPermissions.None? ==> r.ingress == []
    ensures sg.ipPermissions.Some? ==>
              |r.ingress| == |sg.ipPermissions.value| && forall i :: 0 <= i < |r.ingress| ==> r.ingress[i] == MapRule(sg.ipPermissions.value[i])
    ensures sg.ipPermissionsEgress.None? ==> r.egress == []
    ensures sg.ipPermissionsEgress.Some? ==>
              |r.egress| == |sg.ipPermissionsEgress.value| && forall i :: 0 <= i < |r.egress| ==> r.egress[i] == MapRule(sg.ipPermissionsEgress.value[i])
  {
    SecGroupModel(
      sg.groupId.GetOr("unknown-sec-group"),
      sg.vpcId.GetOr("unknown-vpc"),
      sg.groupName,
      sg.description,
      MapOpt(sg.ipPermissions, MapRule),
      MapOpt(sg.ipPermissionsEgress, MapRule))
  }

  /** `getAllSecurityGroups`: one model per group, in order. */
  function GetAllSecurityGroups(response: Option<seq<SecurityGroup>>): (r: seq<SecGroupModel>)
    ensures response.None? ==> r == []
    ensures response.Some? ==> |r| == |response.value| && forall i :: 0 <= i < |r| ==> r[i] == MapSecurityGroup(response.value[i])
  {
    MapOpt(response, MapSecurityGroup)
  }

  /** "-1" is ambiguous: a rule with no ports and a rule whose ports are both
      -1 get the same text. */
  lemma MinusOneAmbiguous(r1: IpPermission, r2: IpPermission)
    requires r1.fromPort.None? && r1.toPort.None?
    requires r2.fromPort == Some(-1) && r2.toPort == Some(-1)
    ensures PortText(r1) == PortText(r2) == "-1"
  {
    assert NatText(1) == "1";
  }

  /** Every peer comes from one of the four lists, a missing value showing
      the sentinel of its list. */
  lemma PeerOrigins(rule: IpPermission, p: string)
    requires p in Peers(rule)
    ensures p in V4Peers(rule) || p in V6Peers(rule) || p in PrefixListPeers(rule) || p in GroupPeers(rule)
  {
  }
}
