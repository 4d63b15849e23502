/** src/api-calls/api-gw.ts: API Gateway VPC links, which claim the
    interfaces the gateway manages for that link. */
module ApiGateway {
  import opened Common
  import Enis

  // Raw SDK shape (GetVpcLinks).
  datatype VpcLink = VpcLink(
    vpcLinkId: Option<string>,
    name: Option<string>,
    vpcLinkStatus: Option<string>,
    subnetIds: Option<seq<string>>)

  datatype ApiGwVpcLinkModel = ApiGwVpcLinkModel(
    id: string,
    name: Option<string>,
    status: string,
    subnetIds: seq<string>,
    enis: seq<string>)

  const ManagedType := "api_gateway_managed"

  /** The rule of api-gw.ts:19: managed by API Gateway, and the interface's
      link id equals the link's (two absent ids count as equal). */
  predicate Owns(eni: Enis.EniModel, linkId: Option<string>) {
    eni.interfaceType == Some(ManagedType) && eni.vpcLinkId == linkId
  }

  /** The claim rule of one link as a value. */
  function Claims(linkId: Option<string>): Enis.EniModel -> bool {
    (e: Enis.EniModel) => Owns(e, linkId)
  }

  function MapVpcLink(link: VpcLink, enis: seq<Enis.EniModel>): (r: ApiGwVpcLinkModel)
    ensures r.id == link.vpcLinkId.GetOr("unknown-apigw-vpclink")
    ensures r.name == link.name && r.status == link.vpcLinkStatus.GetOr("UNKNOWN")
    ensures r.subnetIds == link.subnetIds.GetOr([])
    ensures forall e :: e in enis && Owns(e, link.vpcLinkId) ==> e.id in r.enis
    ensures forall id :: id in r.enis ==>
              exists e :: e in enis && e.id == id && e.interfaceType == Some(ManagedType) && e.vpcLinkId == link.vpcLinkId
    ensures Subseq(r.enis, Enis.Ids(enis))
    // One id per owned interface, in interface order.
    ensures Enis.IdsOfAccepted(r.enis, enis, Claims(link.vpcLinkId))
  {
    var linkId := link.vpcLinkId;
    ApiGwVpcLinkModel(
      link.vpcLinkId.GetOr("unknown-apigw-vpclink"),
      link.name,
      link.vpcLinkStatus.GetOr("UNKNOWN"),
      link.subnetIds.GetOr([]),
      Enis.ClaimedIds(enis, Claims(linkId)))
  }

  /** `getAllApiGwVpcLinks`: one model per item, none when `Items` is absent. */
  function GetAllApiGwVpcLinks(items: Option<seq<VpcLink>>, enis: seq<Enis.EniModel>): (r: seq<ApiGwVpcLinkModel>)
    ensures items.None? ==> r == []
    ensures items.Some? ==> |r| == |items.value| && forall i :: 0 <= i < |r| ==> r[i] == MapVpcLink(items.value[i], enis)
  {
    MapOpt(items, (link: VpcLink) => MapVpcLink(link, enis))
  }

  /** Interfaces straight from the ENI mapper carry no interface type, so
      no link claims any of them. */
  lemma MappedEnisNeverClaimed(link: VpcLink, raws: seq<Enis.NetworkInterface>)
    ensures MapVpcLink(link, Enis.GetAllEnis(Some(raws))).enis == []
  {
    var enis := Enis.GetAllEnis(Some(raws));
    forall e | e in enis ensures e.interfaceType.None? {
      var i :| 0 <= i < |enis| && enis[i] == e;
    }
  }

  /** Two links both lacking an id claim the same managed interfaces: those
      whose link id is absent too. */
  lemma IdlessLinksShareClaims(l1: VpcLink, l2: VpcLink, enis: seq<Enis.EniModel>)
    requires l1.vpcLinkId.None? && l2.vpcLinkId.None?
    ensures MapVpcLink(l1, enis).enis == MapVpcLink(l2, enis).enis
  {
  }
}
