/** src/api-calls/vpc-endpoint.ts: VPC endpoints and the interfaces they own. */
module VpcEndpoints {
  import opened Common

  // Raw SDK shape (DescribeVpcEndpoints).
  datatype VpcEndpoint = VpcEndpoint(
    vpcEndpointId: Option<string>,
    vpcEndpointType: Option<string>,
    serviceName: Option<string>,
    vpcId: Option<string>,
    state: Option<string>,
    privateDnsEnabled: Option<bool>,
    networkInterfaceIds: Option<seq<string>>)

  datatype VpcEndpointModel = VpcEndpointModel(
    id: string,
    endpointType: string,
    service: string,
    vpcId: string,
    state: string,
    privateDns: bool,
    enis: seq<string>)

  function MapVpcEndpoint(ep: VpcEndpoint): (r: VpcEndpointModel)
    ensures r.id == ep.vpcEndpointId.GetOr("unknown-vpc-endpoint")
    ensures r.endpointType == ep.vpcEndpointType.GetOr("unknown") && r.service == ep.serviceName.GetOr("unknown")
    ensures r.vpcId == ep.vpcId.GetOr("?vpc") && r.state == ep.state.GetOr("unknown")
    ensures r.privateDns <==> ep.privateDnsEnabled == Some(true)
    ensures r.enis == ep.networkInterfaceIds.GetOr([])
  {
    VpcEndpointModel(
      ep.vpcEndpointId.GetOr("unknown-vpc-endpoint"),
      ep.vpcEndpointType.GetOr("unknown"),
      ep.serviceName.GetOr("unknown"),
      ep.vpcId.GetOr("?vpc"),
      ep.state.GetOr("unknown"),
      ep.privateDnsEnabled.GetOr(false),
      ep.networkInterfaceIds.GetOr([]))
  }

  /** `getAllVpcEndpoints`: one model per endpoint, in order. */
  function GetAllVpcEndpoints(response: Option<seq<VpcEndpoint>>): (r: seq<VpcEndpointModel>)
    ensures response.None? ==> r == []
    ensures response.Some? ==> |r| == |response.value| && forall i :: 0 <= i < |r| ==> r[i] == MapVpcEndpoint(response.value[i])
  {
    MapOpt(response, MapVpcEndpoint)
  }
}
