/** src/api-calls/tgw.ts: transit gateways and their attachments; an
    attachment is joined to its gateway by id and claims the interfaces whose
    description mentions the attachment id. */
module TransitGateways {
  import opened Common
  import Enis

  // Raw SDK shapes (DescribeTransitGateways, DescribeTransitGatewayAttachments).
  datatype TgwOptions = TgwOptions(amazonSideAsn: Option<int>)
  datatype TransitGateway = TransitGateway(
    transitGatewayId: Option<string>,
    tags: Option<seq<Tag>>,
    description: Option<string>,
    state: Option<string>,
    ownerId: Option<string>,
    options: Option<TgwOptions>)
  datatype TransitGatewayAttachment = TransitGatewayAttachment(
    transitGatewayAttachmentId: Option<string>,
    tags: Option<seq<Tag>>,
    transitGatewayId: Option<string>,
    state: Option<string>,
    resourceType: Option<string>,
    resourceId: Option<string>)

  datatype TgwModel = TgwModel(
    id: string,
    name: Option<string>,
    description: Option<string>,
    state: string,
    owner: string,
    asn: Option<int>)

  datatype TgwAttachmentModel = TgwAttachmentModel(
    id: string,
    name: Option<string>,
    logicalId: Option<string>,
    tgw: Option<TgwModel>,
    state: string,
    vpcId: Option<string>,
    subnets: seq<string>,
    enis: seq<string>)

  function MapTgw(tgw: TransitGateway): (r: TgwModel)
    ensures r.id == tgw.transitGatewayId.GetOr("unknown-tgw")
    ensures r.name == TagValue(tgw.tags, "Name") && r.description == tgw.description
    ensures r.state == tgw.state.GetOr("unknown") && r.owner == tgw.ownerId.GetOr("unknown")
    ensures tgw.options.None? ==> r.asn.None?
    ensures tgw.options.Some? ==> r.asn == tgw.options.value.amazonSideAsn
  {
    TgwModel(
      tgw.transitGatewayId.GetOr("unknown-tgw"),
      TagValue(tgw.tags, "Name"),
      tgw.description,
      tgw.state.GetOr("unknown"),
      tgw.ownerId.GetOr("unknown"),
      if tgw.options.Some? then tgw.options.value.amazonSideAsn else None)
  }

  predicate IsLogicalIdKey(t: Tag) {
    t.key == Some("aws:cloudformation:logical-id") || t.key == Some("logical-id")
  }

  /** The first tag keyed by either logical-id spelling decides, whichever
      spelling comes first. */
  function AttachmentLogicalId(tags: Option<seq<Tag>>): (r: Option<string>)
    ensures tags.None? ==> r.None?
    ensures r.Some? ==> exists i :: 0 <= i < |tags.value| && IsLogicalIdKey(tags.value[i]) && tags.value[i].value == r &&
                                    forall j :: 0 <= j < i ==> !IsLogicalIdKey(tags.value[j])
    // Completeness: the first matching tag's value is the answer.
    ensures tags.Some? ==>
              forall i :: 0 <= i < |tags.value| && IsLogicalIdKey(tags.value[i]) && (forall j :: 0 <= j < i ==> !IsLogicalIdKey(tags.value[j]))
                ==> r == tags.value[i].value
  {
    if tags.None? then None
    else match Find(tags.value, IsLogicalIdKey)
      case None => None
      case Some(t) => t.value
  }

  /** The text searched for in descriptions: the attachment id, or the
      placeholder "tgw-attach-xxxxx" when it is absent. */
  function MatchToken(att: TransitGatewayAttachment): string {
    att.transitGatewayAttachmentId.GetOr("tgw-attach-xxxxx")
  }

  predicate Describes(eni: Enis.EniModel, token: string) {
    eni.description.Some? && Contains(eni.description.value, token)
  }

  /** The claim rule as a value, shared by the `enis` and `subnets` filters. */
  function Claims(att: TransitGatewayAttachment): Enis.EniModel -> bool {
    (e: Enis.EniModel) => Describes(e, MatchToken(att))
  }

  /** `tgws.find(it => it.id == att.TransitGatewayId)`: a defaulted id never
      equals an absent one, so an attachment without a gateway id has none. */
  predicate IsGatewayOf(t: TgwModel, att: TransitGatewayAttachment) {
    Some(t.id) == att.transitGatewayId
  }

  function MapAttachment(att: TransitGatewayAttachment, tgws: seq<TgwModel>, enis: seq<Enis.EniModel>): (r: TgwAttachmentModel)
    ensures r.id == att.transitGatewayAttachmentId.GetOr("unknown-tgw-attachment")
    ensures r.name == TagValue(att.tags, "Name") && r.logicalId == AttachmentLogicalId(att.tags)
    ensures r.state == att.state.GetOr("unknown")
    // The gateway is the first whose id equals the attachment's gateway id.
    ensures att.transitGatewayId.None? ==> r.tgw.None?
    ensures r.tgw.None? <==> forall i :: 0 <= i < |tgws| ==> !IsGatewayOf(tgws[i], att)
    ensures r.tgw.Some? ==> exists i :: 0 <= i < |tgws| && tgws[i] == r.tgw.value && IsGatewayOf(tgws[i], att) &&
                                        forall j :: 0 <= j < i ==> !IsGatewayOf(tgws[j], att)
    // The VPC id is the resource id only for VPC attachments (and may then be absent).
    ensures att.resourceType == Some("vpc") ==> r.vpcId == att.resourceId
    ensures att.resourceType != Some("vpc") ==> r.vpcId == Some("?vpc")
    ensures forall e :: e in enis && Describes(e, MatchToken(att)) ==> e.id in r.enis
    ensures forall id :: id in r.enis ==> exists e :: e in enis && e.id == id && Describes(e, MatchToken(att))
    ensures Subseq(r.enis, Enis.Ids(enis))
    // One id per accepted interface, in interface order.
    ensures Enis.IdsOfAccepted(r.enis, enis, Claims(att))
    ensures |r.subnets| == |r.enis|
  {
    var p := Claims(att);
    TgwAttachmentModel(
      att.transitGatewayAttachmentId.GetOr("unknown-tgw-attachment"),
      TagValue(att.tags, "Name"),
      AttachmentLogicalId(att.tags),
      Find(tgws, (t: TgwModel) => IsGatewayOf(t, att)),
      att.state.GetOr("unknown"),
      if att.resourceType == Some("vpc") then att.resourceId else Some("?vpc"),
      Enis.ClaimedSubnets(enis, p),
      Enis.ClaimedIds(enis, p))
  }

  /** `subnets` runs parallel to `enis`. */
  lemma SubnetsParallel(att: TransitGatewayAttachment, tgws: seq<TgwModel>, enis: seq<Enis.EniModel>)
    ensures forall i :: 0 <= i < |MapAttachment(att, tgws, enis).enis| ==>
              exists e :: e in enis && Describes(e, MatchToken(att)) &&
                e.id == MapAttachment(att, tgws, enis).enis[i] && e.subnetId == MapAttachment(att, tgws, enis).subnets[i]
  {
    var r := MapAttachment(att, tgws, enis);
    assert r.enis == Enis.ClaimedIds(enis, Claims(att)) && r.subnets == Enis.ClaimedSubnets(enis, Claims(att));
    Enis.ClaimsParallel(enis, Claims(att));
  }

  /** `getAllTgwAttachments` after paging: gateways are normalised first, then
      one model per attachment, in order. */
  function GetAllTgwAttachments(attachments: seq<TransitGatewayAttachment>, gateways: seq<TransitGateway>, enis: seq<Enis.EniModel>)
    : (r: seq<TgwAttachmentModel>)
    ensures |r| == |attachments|
    ensures forall i :: 0 <= i < |r| ==> r[i] == MapAttachment(attachments[i], Map(gateways, MapTgw), enis)
  {
    var tgws := Map(gateways, MapTgw);
    Map(attachments, (att: TransitGatewayAttachment) => MapAttachment(att, tgws, enis))
  }

  /** A gateway listed without an id becomes "unknown-tgw", and is then the
      gateway of any attachment that names "unknown-tgw" as its gateway. */
  lemma DefaultedGatewayMatches(gw: TransitGateway, att: TransitGatewayAttachment, enis: seq<Enis.EniModel>)
    requires gw.transitGatewayId.None? && att.transitGatewayId == Some("unknown-tgw")
    ensures GetAllTgwAttachments([att], [gw], enis)[0].tgw == Some(MapTgw(gw))
  {
    assert Map([gw], MapTgw) == [MapTgw(gw)];
  }
}
