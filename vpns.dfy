/** src/api-calls/vpns.ts: customer gateways, VPN connections (joined to
    their customer gateway by id) and virtual private gateways (joined to
    their VPN connections by the filter on line 84). */
module Vpns {
  import opened Common

  // Raw SDK shapes (DescribeCustomerGateways, DescribeVpnConnections, DescribeVpnGateways).
  datatype CustomerGateway = CustomerGateway(
    customerGatewayId: Option<string>,
    tags: Option<seq<Tag>>,
    state: Option<string>,
    gatewayType: Option<string>,
    bgpAsn: Option<string>,
    ipAddress: Option<string>)
  datatype VgwTelemetry = VgwTelemetry(outsideIpAddress: Option<string>, status: Option<string>)
  datatype VpnConnection = VpnConnection(
    vpnConnectionId: Option<string>,
    tags: Option<seq<Tag>>,
    vgwTelemetry: Option<seq<VgwTelemetry>>,
    customerGatewayId: Option<string>,
    vpnGatewayId: Option<string>,
    transitGatewayId: Option<string>,
    state: Option<string>,
    connectionType: Option<string>)
  datatype VpcAttachment = VpcAttachment(state: Option<string>, vpcId: Option<string>)
  datatype VpnGateway = VpnGateway(
    vpnGatewayId: Option<string>,
    tags: Option<seq<Tag>>,
    amazonSideAsn: Option<int>,
    gatewayType: Option<string>,
    state: Option<string>,
    vpcAttachments: Option<seq<VpcAttachment>>)

  datatype CustomerGatewayModel = CustomerGatewayModel(
    id: string,
    name: Option<string>,
    state: string,
    gatewayType: string,
    asn: Option<string>,
    ip: string)
  datatype Tunnel = Tunnel(outsideIp: string, status: string)
  datatype VpnConnectionModel = VpnConnectionModel(
    id: string,
    name: Option<string>,
    tunnels: seq<Tunnel>,
    customerGatewayId: Option<string>,
    customerGateway: Option<CustomerGatewayModel>,
    vpnGatewayId: Option<string>,
    transitGatewayId: Option<string>,
    state: string,
    connectionType: string)
  datatype VgwModel = VgwModel(
    id: string,
    name: Option<string>,
    logicalId: Option<string>,
    asn: Option<int>,
    gatewayType: string,
    state: string,
    vpcIds: seq<string>,
    vpnConnections: seq<VpnConnectionModel>)

  function MapCustomerGateway(cgw: CustomerGateway): (r: CustomerGatewayModel)
    ensures r.id == cgw.customerGatewayId.GetOr("unknown-customer-gateway") && r.name == TagValue(cgw.tags, "Name")
    ensures r.state == cgw.state.GetOr("unknown") && r.gatewayType == cgw.gatewayType.GetOr("unknown")
    ensures r.asn == cgw.bgpAsn && r.ip == cgw.ipAddress.GetOr("?ipv4")
  {
    CustomerGatewayModel(
      cgw.customerGatewayId.GetOr("unknown-customer-gateway"),
      TagValue(cgw.tags, "Name"),
      cgw.state.GetOr("unknown"),
      cgw.gatewayType.GetOr("unknown"),
      cgw.bgpAsn,
      cgw.ipAddress.GetOr("?ipv4"))
  }

  function MapTunnel(t: VgwTelemetry): Tunnel {
    Tunnel(t.outsideIpAddress.GetOr("?ipv4"), t.status.GetOr("unknown"))
  }

  /** `custGateways.find(it => it.id == vpn.CustomerGatewayId)`. */
  predicate IsCustomerGatewayOf(c: CustomerGatewayModel, vpn: VpnConnection) {
    Some(c.id) == vpn.customerGatewayId
  }

  function MapVpnConnection(vpn: VpnConnection, cgws: seq<CustomerGatewayModel>): (r: VpnConnectionModel)
    ensures r.id == vpn.vpnConnectionId.GetOr("unknown-vpn-connection") && r.name == TagValue(vpn.tags, "Name")
    ensures vpn.vgwTelemetry.None? ==> r.tunnels == []
    ensures vpn.vgwTelemetry.Some? ==>
              |r.tunnels| == |vpn.vgwTelemetry.value| &&
              forall i :: 0 <= i < |r.tunnels| ==>
                r.tunnels[i].outsideIp == vpn.vgwTelemetry.value[i].outsideIpAddress.GetOr("?ipv4") &&
                r.tunnels[i].status == vpn.vgwTelemetry.value[i].status.GetOr("unknown")
    ensures r.customerGatewayId == vpn.customerGatewayId
    // The customer gateway is the first with the connection's id, if any.
    ensures r.customerGateway.None? <==> forall i :: 0 <= i < |cgws| ==> !IsCustomerGatewayOf(cgws[i], vpn)
    ensures r.customerGateway.Some? ==>
              exists i :: 0 <= i < |cgws| && cgws[i] == r.customerGateway.value && IsCustomerGatewayOf(cgws[i], vpn) &&
                forall j :: 0 <= j < i ==> !IsCustomerGatewayOf(cgws[j], vpn)
    ensures vpn.customerGatewayId.None? ==> r.customerGateway.None?
    ensures r.vpnGatewayId == vpn.vpnGatewayId && r.transitGatewayId == vpn.transitGatewayId
    ensures r.state == vpn.state.GetOr("unknown") && r.connectionType == vpn.connectionType.GetOr("unknown")
  {
    VpnConnectionModel(
      vpn.vpnConnectionId.GetOr("unknown-vpn-connection"),
      TagValue(vpn.tags, "Name"),
      MapOpt(vpn.vgwTelemetry, MapTunnel),
      vpn.customerGatewayId,
      Find(cgws, (c: CustomerGatewayModel) => IsCustomerGatewayOf(c, vpn)),
      vpn.vpnGatewayId,
      vpn.transitGatewayId,
      vpn.state.GetOr("unknown"),
      vpn.connectionType.GetOr("unknown"))
  }

  predicate IsAttached(a: VpcAttachment) {
    a.state == Some("attached")
  }

  /** An attachment's VPC id, "?vpc" when missing. */
  function AttachmentVpcId(a: VpcAttachment): string {
    a.vpcId.GetOr("?vpc")
  }

  /** The VPC ids of the attachments in state "attached", in order. */
  function AttachedVpcIds(vgw: VpnGateway): (r: seq<string>)
    ensures vgw.vpcAttachments.None? ==> r == []
    // Exactly one id per attached attachment, in attachment order.
    ensures vgw.vpcAttachments.Some? ==> r == Map(Filter(vgw.vpcAttachments.value, IsAttached), AttachmentVpcId)
    ensures vgw.vpcAttachments.Some? ==>
              (forall a :: a in vgw.vpcAttachments.value && IsAttached(a) ==> a.vpcId.GetOr("?vpc") in r) &&
              (forall v :: v in r ==> exists a :: a in vgw.vpcAttachments.value && IsAttached(a) && a.vpcId.GetOr("?vpc") == v) &&
              |r| <= |vgw.vpcAttachments.value|
  {
    if vgw.vpcAttachments.None? then []
    else
      var attached := Filter(vgw.vpcAttachments.value, IsAttached);
      MapMembership(attached, AttachmentVpcId);
      Map(attached, AttachmentVpcId)
  }

  /** Line 84 as it parses: `vgw.VpnGatewayId ?? ('unknown' == vpn.vpnGatewayId)`,
      the filter then testing the truthiness of the result. */
  predicate KeptAsWritten(vgw: VpnGateway, vpn: VpnConnectionModel) {
    match vgw.vpnGatewayId
    case Some(id) => id != ""
    case None => vpn.vpnGatewayId == Some("unknown")
  }

  /** The join line 84 evidently means: `(vgw.VpnGatewayId ?? 'unknown') == vpn.vpnGatewayId`. */
  predicate BelongsTo(vpn: VpnConnectionModel, vgw: VpnGateway) {
    vpn.vpnGatewayId == Some(vgw.vpnGatewayId.GetOr("unknown"))
  }

  /** The gateway fields other than the connection list. */
  function GatewayModel(vgw: VpnGateway, connections: seq<VpnConnectionModel>): VgwModel {
    VgwModel(
      vgw.vpnGatewayId.GetOr("unknown-virtual-gateway"),
      TagValue(vgw.tags, "Name"),
      TagValue(vgw.tags, "aws:cloudformation:logical-id"),
      vgw.amazonSideAsn,
      vgw.gatewayType.GetOr("unknown"),
      vgw.state.GetOr("unknown"),
      AttachedVpcIds(vgw),
      connections)
  }

  /** One gateway as the source maps it, with line 84 as written. */
  function MapVgw(vgw: VpnGateway, conns: seq<VpnConnectionModel>): (r: VgwModel)
    ensures r.id == vgw.vpnGatewayId.GetOr("unknown-virtual-gateway")
    ensures r.name == TagValue(vgw.tags, "Name") && r.logicalId == TagValue(vgw.tags, "aws:cloudformation:logical-id")
    ensures r.asn == vgw.amazonSideAsn && r.gatewayType == vgw.gatewayType.GetOr("unknown") && r.state == vgw.state.GetOr("unknown")
    ensures r.vpcIds == AttachedVpcIds(vgw)
    // A gateway with a non-empty id lists every connection, whichever gateway it uses ...
    ensures vgw.vpnGatewayId.Some? && vgw.vpnGatewayId.value != "" ==> r.vpnConnections == conns
    // ... one with an empty id lists none ...
    ensures vgw.vpnGatewayId == Some("") ==> r.vpnConnections == []
    // ... and one without an id lists those whose gateway id is literally "unknown".
    ensures vgw.vpnGatewayId.None? ==>
              forall c :: c in r.vpnConnections <==> c in conns && c.vpnGatewayId == Some("unknown")
    // Whatever is kept keeps its order and multiplicity.
    ensures Subseq(r.vpnConnections, conns)
  {
    GatewayModel(vgw, Filter(conns, (vpn: VpnConnectionModel) => KeptAsWritten(vgw, vpn)))
  }

  /** The same gateway with the join evidently intended: exactly the
      connections that name this gateway (or "unknown" when it has no id), in order. */
  function MapVgwIntended(vgw: VpnGateway, conns: seq<VpnConnectionModel>): (r: VgwModel)
    ensures r == GatewayModel(vgw, r.vpnConnections)
    ensures forall c :: c in r.vpnConnections <==> c in conns && BelongsTo(c, vgw)
    ensures Subseq(r.vpnConnections, conns)
  {
    GatewayModel(vgw, Filter(conns, (vpn: VpnConnectionModel) => BelongsTo(vpn, vgw)))
  }

  /** Under the intended join a connection is listed under at most one of
      two gateways with different ids. */
  lemma IntendedGatewaysDisjoint(g1: VpnGateway, g2: VpnGateway, conns: seq<VpnConnectionModel>, c: VpnConnectionModel)
    requires g1.vpnGatewayId.GetOr("unknown") != g2.vpnGatewayId.GetOr("unknown")
    ensures !(c in MapVgwIntended(g1, conns).vpnConnections && c in MapVgwIntended(g2, conns).vpnConnections)
  {
  }

  /** `getAllVirtualGateways`: customer gateways first, then connections
      joined to them, then gateways with line 84 as written. */
  function GetAllVirtualGateways(
    vpnGateways: Option<seq<VpnGateway>>,
    vpnConnections: Option<seq<VpnConnection>>,
    customerGateways: Option<seq<CustomerGateway>>): (r: seq<VgwModel>)
    ensures vpnGateways.None? ==> r == []
    ensures vpnGateways.Some? ==> |r| == |vpnGateways.value|
    ensures vpnGateways.Some? ==>
              forall i :: 0 <= i < |r| ==> r[i] == MapVgw(vpnGateways.value[i], AllConnections(vpnConnections, customerGateways))
  {
    var conns := AllConnections(vpnConnections, customerGateways);
    MapOpt(vpnGateways, (vgw: VpnGateway) => MapVgw(vgw, conns))
  }

  function AllConnections(vpnConnections: Option<seq<VpnConnection>>, customerGateways: Option<seq<CustomerGateway>>)
    : (r: seq<VpnConnectionModel>)
    ensures vpnConnections.None? ==> r == []
    ensures vpnConnections.Some? ==> |r| == |vpnConnections.value|
    ensures vpnConnections.Some? ==>
              forall i :: 0 <= i < |r| ==> r[i] == MapVpnConnection(vpnConnections.value[i], MapOpt(customerGateways, MapCustomerGateway))
  {
    var cgws := MapOpt(customerGateways, MapCustomerGateway);
    MapOpt(vpnConnections, (vpn: VpnConnection) => MapVpnConnection(vpn, cgws))
  }

  function Gateway(id: string): VpnGateway {
    VpnGateway(Some(id), None, None, None, None, None)
  }

  const ConnectionToVgw2 := VpnConnectionModel("vpn-1", None, [], None, None, Some("vgw-2"), None, "available", "ipsec.1")

  /** Two gateways and one connection that uses the second: as written,
      both gateways list it; as intended, only the second does. */
  lemma ConnectionListedUnderEveryGateway()
    ensures MapVgw(Gateway("vgw-1"), [ConnectionToVgw2]).vpnConnections == [ConnectionToVgw2]
    ensures MapVgw(Gateway("vgw-2"), [ConnectionToVgw2]).vpnConnections == [ConnectionToVgw2]
    ensures MapVgwIntended(Gateway("vgw-1"), [ConnectionToVgw2]).vpnConnections == []
    ensures MapVgwIntended(Gateway("vgw-2"), [ConnectionToVgw2]).vpnConnections == [ConnectionToVgw2]
  {
    assert !BelongsTo(ConnectionToVgw2, Gateway("vgw-1"));
    assert BelongsTo(ConnectionToVgw2, Gateway("vgw-2"));
  }
}
