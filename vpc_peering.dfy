/** src/api-calls/vpc-peering.ts: VPC peering connections, each with a
    requester side and an accepter side. */
module VpcPeerings {
  import opened Common

  // Raw SDK shapes (DescribeVpcPeeringConnections).
  datatype CidrBlock = CidrBlock(cidrBlock: Option<string>)
  datatype Ipv6CidrBlock = Ipv6CidrBlock(ipv6CidrBlock: Option<string>)
  datatype VpcPeeringConnectionVpcInfo = VpcPeeringConnectionVpcInfo(
    cidrBlockSet: Option<seq<CidrBlock>>,
    ipv6CidrBlockSet: Option<seq<Ipv6CidrBlock>>,
    vpcId: Option<string>,
    ownerId: Option<string>)
  datatype PeeringStatus = PeeringStatus(code: Option<string>)
  datatype VpcPeeringConnection = VpcPeeringConnection(
    vpcPeeringConnectionId: Option<string>,
    tags: Option<seq<Tag>>,
    status: Option<PeeringStatus>,
    requesterVpcInfo: Option<VpcPeeringConnectionVpcInfo>,
    accepterVpcInfo: Option<VpcPeeringConnectionVpcInfo>)

  datatype PeeringSide = PeeringSide(cidrs: seq<string>, vpcId: string, account: string)
  datatype VpcPeeringModel = VpcPeeringModel(
    id: string,
    name: Option<string>,
    logicalId: Option<string>,
    status: string,
    requester: PeeringSide,
    accepter: PeeringSide)

  function V4Cidrs(info: Option<VpcPeeringConnectionVpcInfo>): seq<string> {
    if info.Some? then MapOpt(info.value.cidrBlockSet, (c: CidrBlock) => c.cidrBlock.GetOr("?cidrv4")) else []
  }

  function V6Cidrs(info: Option<VpcPeeringConnectionVpcInfo>): seq<string> {
    if info.Some? then MapOpt(info.value.ipv6CidrBlockSet, (c: Ipv6CidrBlock) => c.ipv6CidrBlock.GetOr("?cidrv6")) else []
  }

  /** One side: its IPv4 blocks then its IPv6 blocks, and defaulted ids. */
  function MapSide(info: Option<VpcPeeringConnectionVpcInfo>): (r: PeeringSide)
    ensures |r.cidrs| == |V4Cidrs(info)| + |V6Cidrs(info)|
    ensures r.cidrs[..|V4Cidrs(info)|] == V4Cidrs(info) && r.cidrs[|V4Cidrs(info)|..] == V6Cidrs(info)
    ensures info.None? ==> r == PeeringSide([], "?vpcid", "?account")
    ensures info.Some? ==> r.vpcId == info.value.vpcId.GetOr("?vpcid") && r.account == info.value.ownerId.GetOr("?account")
  {
    PeeringSide(
      V4Cidrs(info) + V6Cidrs(info),
      if info.Some? then info.value.vpcId.GetOr("?vpcid") else "?vpcid",
      if info.Some? then info.value.ownerId.GetOr("?account") else "?account")
  }

  function MapPeering(pcx: VpcPeeringConnection): (r: VpcPeeringModel)
    ensures r.id == pcx.vpcPeeringConnectionId.GetOr("unknown-vpc-peering")
    ensures r.name == TagValue(pcx.tags, "Name") && r.logicalId == TagValue(pcx.tags, "aws:cloudformation:logical-id")
    ensures pcx.status.None? ==> r.status == "unknown"
    ensures pcx.status.Some? ==> r.status == pcx.status.value.code.GetOr("unknown")
    ensures r.requester == MapSide(pcx.requesterVpcInfo) && r.accepter == MapSide(pcx.accepterVpcInfo)
  {
    VpcPeeringModel(
      pcx.vpcPeeringConnectionId.GetOr("unknown-vpc-peering"),
      TagValue(pcx.tags, "Name"),
      TagValue(pcx.tags, "aws:cloudformation:logical-id"),
      if pcx.status.Some? then pcx.status.value.code.GetOr("unknown") else "unknown",
      MapSide(pcx.requesterVpcInfo),
      MapSide(pcx.accepterVpcInfo))
  }

  /** `getAllVpcPeerings`: one model per connection, in order. */
  function GetAllVpcPeerings(response: Option<seq<VpcPeeringConnection>>): (r: seq<VpcPeeringModel>)
    ensures response.None? ==> r == []
    ensures response.Some? ==> |r| == |response.value| && forall i :: 0 <= i < |r| ==> r[i] == MapPeering(response.value[i])
  {
    MapOpt(response, MapPeering)
  }

  /** The two sides are built by the same rule: swapping the raw sides swaps
      the modelled ones. */
  lemma SidesSymmetric(pcx: VpcPeeringConnection)
    ensures MapPeering(pcx.(requesterVpcInfo := pcx.accepterVpcInfo, accepterVpcInfo := pcx.requesterVpcInfo)).requester
         == MapPeering(pcx).accepter
    ensures MapPeering(pcx.(requesterVpcInfo := pcx.accepterVpcInfo, accepterVpcInfo := pcx.requesterVpcInfo)).accepter
         == MapPeering(pcx).requester
  {
  }
}
