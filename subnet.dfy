/** src/api-calls/subnet.ts: subnets. */
module Subnets {
  import opened Common

  // Raw SDK shape (DescribeSubnets).
  datatype Subnet = Subnet(
    subnetId: Option<string>,
    tags: Option<seq<Tag>>,
    vpcId: Option<string>,
    availabilityZone: Option<string>,
    cidrBlock: Option<string>,
    availableIpAddressCount: Option<int>)

  datatype SubnetModel = SubnetModel(
    id: string,
    name: Option<string>,
    vpcId: string,
    az: string,
    v4Cidr: string,
    availableIps: int)

  function MapSubnet(subnet: Subnet): (r: SubnetModel)
    ensures r.id == subnet.subnetId.GetOr("unknown-subnet") && r.name == TagValue(subnet.tags, "Name")
    ensures r.vpcId == subnet.vpcId.GetOr("?vpc") && r.az == subnet.availabilityZone.GetOr("?az")
    ensures r.v4Cidr == subnet.cidrBlock.GetOr("cidrv4")
    ensures r.availableIps == subnet.availableIpAddressCount.GetOr(0)
  {
    SubnetModel(
      subnet.subnetId.GetOr("unknown-subnet"),
      TagValue(subnet.tags, "Name"),
      subnet.vpcId.GetOr("?vpc"),
      subnet.availabilityZone.GetOr("?az"),
      subnet.cidrBlock.GetOr("cidrv4"),
      subnet.availableIpAddressCount.GetOr(0))
  }

  /** `getAllSubnets`: one model per subnet, in order. */
  function GetAllSubnets(response: Option<seq<Subnet>>): (r: seq<SubnetModel>)
    ensures response.None? ==> r == []
    ensures response.Some? ==> |r| == |response.value| && forall i :: 0 <= i < |r| ==> r[i] == MapSubnet(response.value[i])
  {
    MapOpt(response, MapSubnet)
  }
}
