/** src/api-calls/igw.ts: internet gateways and the VPCs they are attached to. */
module InternetGateways {
  import opened Common

  // Raw SDK shapes (DescribeInternetGateways).
  datatype InternetGatewayAttachment = InternetGatewayAttachment(state: Option<string>, vpcId: Option<string>)
  datatype InternetGateway = InternetGateway(
    internetGatewayId: Option<string>,
    tags: Option<seq<Tag>>,
    attachments: Option<seq<InternetGatewayAttachment>>)

  datatype InternetGatewayModel = InternetGatewayModel(id: string, name: Option<string>, vpcIds: seq<string>)

  predicate IsAvailable(a: InternetGatewayAttachment) {
    a.state == Some("available")
  }

  function AttachmentVpc(a: InternetGatewayAttachment): string {
    a.vpcId.GetOr("?vpc")
  }

  function MapInternetGateway(igw: InternetGateway): (r: InternetGatewayModel)
    ensures r.id == igw.internetGatewayId.GetOr("unknown-igw") && r.name == TagValue(igw.tags, "Name")
    ensures igw.attachments.None? ==> r.vpcIds == []
    // Exactly the VPCs of the attachments in state "available", one per attachment, in order.
    ensures igw.attachments.Some? ==> r.vpcIds == Map(Filter(igw.attachments.value, IsAvailable), AttachmentVpc)
    ensures igw.attachments.Some? ==>
              (forall a :: a in igw.attachments.value && IsAvailable(a) ==> AttachmentVpc(a) in r.vpcIds) &&
              (forall v :: v in r.vpcIds ==> exists a :: a in igw.attachments.value && IsAvailable(a) && AttachmentVpc(a) == v)
  {
    InternetGatewayModel(
      igw.internetGatewayId.GetOr("unknown-igw"),
      TagValue(igw.tags, "Name"),
      if igw.attachments.Some? then Select(igw.attachments.value, IsAvailable, AttachmentVpc) else [])
  }

  /** `getAllInternetGateways`: one model per gateway, in order. */
  function GetAllInternetGateways(response: Option<seq<InternetGateway>>): (r: seq<InternetGatewayModel>)
    ensures response.None? ==> r == []
    ensures response.Some? ==> |r| == |response.value| && forall i :: 0 <= i < |r| ==> r[i] == MapInternetGateway(response.value[i])
  {
    MapOpt(response, MapInternetGateway)
  }

  /** A gateway whose attachments are all still attaching or detached is
      placed under no VPC. */
  lemma UnavailableAttachmentsIgnored(igw: InternetGateway)
    requires igw.attachments.Some? && forall a :: a in igw.attachments.value ==> !IsAvailable(a)
    ensures MapInternetGateway(igw).vpcIds == []
  {
  }
}
