/** src/api-calls/vpc.ts: VPCs and their IPv4 CIDR blocks. */
module Vpcs {
  import opened Common

  // Raw SDK shapes (DescribeVpcs).
  datatype CidrBlockAssociation = CidrBlockAssociation(cidrBlock: Option<string>)
  datatype Vpc = Vpc(
    vpcId: Option<string>,
    tags: Option<seq<Tag>>,
    cidrBlockAssociationSet: Option<seq<CidrBlockAssociation>>,
    cidrBlock: Option<string>,
    ownerId: Option<string>)

  datatype VpcModel = VpcModel(id: string, name: Option<string>, v4Cidrs: seq<string>, accountId: string)

  function MapVpc(vpc: Vpc): (r: VpcModel)
    ensures r.id == vpc.vpcId.GetOr("unknown-vpc") && r.name == TagValue(vpc.tags, "Name")
    ensures r.accountId == vpc.ownerId.GetOr("?account")
    // A present association set, even an empty one, decides the CIDR list ...
    ensures vpc.cidrBlockAssociationSet.Some? ==>
              |r.v4Cidrs| == |vpc.cidrBlockAssociationSet.value| &&
              forall i :: 0 <= i < |r.v4Cidrs| ==> r.v4Cidrs[i] == vpc.cidrBlockAssociationSet.value[i].cidrBlock.GetOr("?cidrv4")
    // ... and only without one is the primary block used.
    ensures vpc.cidrBlockAssociationSet.None? ==> r.v4Cidrs == [vpc.cidrBlock.GetOr("cidrv4")]
  {
    VpcModel(
      vpc.vpcId.GetOr("unknown-vpc"),
      TagValue(vpc.tags, "Name"),
      if vpc.cidrBlockAssociationSet.Some?
      then Map(vpc.cidrBlockAssociationSet.value, (a: CidrBlockAssociation) => a.cidrBlock.GetOr("?cidrv4"))
      else [vpc.cidrBlock.GetOr("cidrv4")],
      vpc.ownerId.GetOr("?account"))
  }

  /** `getAllVpcs`: one model per VPC, in order; none when the list is absent. */
  function GetAllVpcs(response: Option<seq<Vpc>>): (r: seq<VpcModel>)
    ensures response.None? ==> r == []
    ensures response.Some? ==> |r| == |response.value| && forall i :: 0 <= i < |r| ==> r[i] == MapVpc(response.value[i])
  {
    MapOpt(response, MapVpc)
  }

  /** An empty association set hides the primary block: the VPC shows no
      CIDR at all, where an absent set would have shown one. */
  lemma EmptyAssociationSetHidesPrimaryCidr(vpc: Vpc)
    requires vpc.cidrBlockAssociationSet == Some([]) && vpc.cidrBlock.Some?
    ensures MapVpc(vpc).v4Cidrs == []
    ensures MapVpc(vpc.(cidrBlockAssociationSet := None)).v4Cidrs == [vpc.cidrBlock.value]
  {
  }
}
