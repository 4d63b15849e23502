/** src/api-calls/nat-gw.ts: NAT gateways and the interfaces of their addresses. */
module NatGateways {
  import opened Common

  // Raw SDK shapes (DescribeNatGateways).
  datatype NatGatewayAddress = NatGatewayAddress(networkInterfaceId: Option<string>, privateIp: Option<string>, publicIp: Option<string>)
  datatype NatGateway = NatGateway(
    natGatewayId: Option<string>,
    tags: Option<seq<Tag>>,
    subnetId: Option<string>,
    natGatewayAddresses: Option<seq<NatGatewayAddress>>)

  datatype NatGatewayModel = NatGatewayModel(id: string, name: Option<string>, subnetId: string, enis: seq<string>)

  function MapNatGateway(gw: NatGateway): (r: NatGatewayModel)
    ensures r.id == gw.natGatewayId.GetOr("unknown-nat-gw") && r.name == TagValue(gw.tags, "Name")
    ensures r.subnetId == gw.subnetId.GetOr("?subnet")
    ensures gw.natGatewayAddresses.None? ==> r.enis == []
    ensures gw.natGatewayAddresses.Some? ==>
              |r.enis| == |gw.natGatewayAddresses.value| &&
              forall i :: 0 <= i < |r.enis| ==> r.enis[i] == gw.natGatewayAddresses.value[i].networkInterfaceId.GetOr("?eni")
  {
    NatGatewayModel(
      gw.natGatewayId.GetOr("unknown-nat-gw"),
      TagValue(gw.tags, "Name"),
      gw.subnetId.GetOr("?subnet"),
      MapOpt(gw.natGatewayAddresses, (a: NatGatewayAddress) => a.networkInterfaceId.GetOr("?eni")))
  }

  /** `getAllNatGateways`: one model per gateway, in order; none when absent. */
  function GetAllNatGateways(response: Option<seq<NatGateway>>): (r: seq<NatGatewayModel>)
    ensures response.None? ==> r == []
    ensures response.Some? ==> |r| == |response.value| && forall i :: 0 <= i < |r| ==> r[i] == MapNatGateway(response.value[i])
  {
    MapOpt(response, MapNatGateway)
  }
}
