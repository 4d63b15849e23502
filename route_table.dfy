/** src/api-calls/route-table.ts: route tables, whether they are their VPC's
    main table, the subnets explicitly associated with them, and their routes. */
module RouteTables {
  import opened Common

  // Raw SDK shapes (DescribeRouteTables).
  datatype AssociationState = AssociationState(state: Option<string>)
  datatype RouteTableAssociation = RouteTableAssociation(
    main: Option<bool>,
    subnetId: Option<string>,
    associationState: Option<AssociationState>)
  datatype Route = Route(
    destinationCidrBlock: Option<string>,
    destinationIpv6CidrBlock: Option<string>,
    destinationPrefixListId: Option<string>,
    carrierGatewayId: Option<string>,
    egressOnlyInternetGatewayId: Option<string>,
    gatewayId: Option<string>,
    instanceId: Option<string>,
    localGatewayId: Option<string>,
    natGatewayId: Option<string>,
    networkInterfaceId: Option<string>,
    transitGatewayId: Option<string>,
    vpcPeeringConnectionId: Option<string>,
    state: Option<string>,
    origin: Option<string>)
  datatype RouteTable = RouteTable(
    routeTableId: Option<string>,
    tags: Option<seq<Tag>>,
    associations: Option<seq<RouteTableAssociation>>,
    vpcId: Option<string>,
    routes: Option<seq<Route>>)

  datatype RouteModel = RouteModel(destination: string, via: string, state: string, propagated: bool)
  datatype RouteTableModel = RouteTableModel(
    id: string,
    name: Option<string>,
    isMain: bool,
    vpcId: string,
    subnetAssociations: seq<string>,
    routes: seq<RouteModel>)

  /** A chain `a ?? b ?? ... ?? default`: the first present value, else the default. */
  function FirstPresent(xs: seq<Option<string>>, default: string): (r: string)
    ensures (forall i :: 0 <= i < |xs| ==> xs[i].None?) ==> r == default
    ensures forall i :: 0 <= i < |xs| && xs[i].Some? && (forall j :: 0 <= j < i ==> xs[j].None?) ==> r == xs[i].value
  {
    if xs == [] then default
    else if xs[0].Some? then xs[0].value
    else
      assert forall i :: 1 <= i < |xs| ==> xs[i] == xs[1..][i - 1];
      FirstPresent(xs[1..], default)
  }

  predicate IsMainAssociation(a: RouteTableAssociation) {
    a.main == Some(true)
  }

  /** `Associations?.some(it => it.Main == true) ?? false`: a scan for the
      first main association. */
  function IsMain(table: RouteTable): (r: bool)
    ensures r <==> table.associations.Some? && exists a :: a in table.associations.value && IsMainAssociation(a)
  {
    table.associations.Some? && Find(table.associations.value, IsMainAssociation).Some?
  }

  /** An explicit subnet association: not the main one, and in state "associated". */
  predicate IsSubnetAssociation(a: RouteTableAssociation) {
    a.main != Some(true) && a.associationState.Some? && a.associationState.value.state == Some("associated")
  }

  function AssociationSubnet(a: RouteTableAssociation): string {
    a.subnetId.GetOr("?subnet")
  }

  function SubnetAssociations(table: RouteTable): (r: seq<string>)
    ensures table.associations.None? ==> r == []
    // One subnet per explicit association, in association order.
    ensures table.associations.Some? ==> r == Map(Filter(table.associations.value, IsSubnetAssociation), AssociationSubnet)
    ensures table.associations.Some? ==>
              (forall a :: a in table.associations.value && IsSubnetAssociation(a) ==> AssociationSubnet(a) in r) &&
              (forall s :: s in r ==> exists a :: a in table.associations.value && IsSubnetAssociation(a) && AssociationSubnet(a) == s)
  {
    if table.associations.Some? then Select(table.associations.value, IsSubnetAssociation, AssociationSubnet) else []
  }

  /** The destination candidates in precedence order. */
  function DestinationCandidates(route: Route): seq<Option<string>> {
    [route.destinationCidrBlock, route.destinationIpv6CidrBlock, route.destinationPrefixListId]
  }

  /** The next-hop candidates in the order of route-table.ts:37-45. */
  function ViaCandidates(route: Route): seq<Option<string>> {
    [route.carrierGatewayId, route.egressOnlyInternetGatewayId, route.gatewayId, route.instanceId,
     route.localGatewayId, route.natGatewayId, route.networkInterfaceId, route.transitGatewayId,
     route.vpcPeeringConnectionId]
  }

  function MapRoute(route: Route): (r: RouteModel)
    ensures route.destinationCidrBlock.Some? ==> r.destination == route.destinationCidrBlock.value
    ensures route.destinationCidrBlock.None? && route.destinationIpv6CidrBlock.Some? ==> r.destination == route.destinationIpv6CidrBlock.value
    ensures route.destinationCidrBlock.None? && route.destinationIpv6CidrBlock.None? ==>
              r.destination == route.destinationPrefixListId.GetOr("unknown")
    ensures (forall i :: 0 <= i < 9 ==> ViaCandidates(route)[i].None?) ==> r.via == "unknown"
    ensures forall i :: 0 <= i < 9 && ViaCandidates(route)[i].Some? && (forall j :: 0 <= j < i ==> ViaCandidates(route)[j].None?) ==>
              r.via == ViaCandidates(route)[i].value
    ensures r.state == route.state.GetOr("unknown")
    ensures r.propagated <==> route.origin == Some("EnableVgwRoutePropagation")
  {
    var d := DestinationCandidates(route);
    assert d[0] == route.destinationCidrBlock && d[1] == route.destinationIpv6CidrBlock && d[2] == route.destinationPrefixListId;
    RouteModel(
      FirstPresent(d, "unknown"),
      FirstPresent(ViaCandidates(route), "unknown"),
      route.state.GetOr("unknown"),
      route.origin == Some("EnableVgwRoutePropagation"))
  }

  function MapRouteTable(table: RouteTable): (r: RouteTableModel)
    ensures r.id == table.routeTableId.GetOr("unknown-route-table") && r.name == TagValue(table.tags, "Name")
    ensures r.isMain == IsMain(table) && r.vpcId == table.vpcId.GetOr("?vpc")
    ensures r.subnetAssociations == SubnetAssociations(table)
    ensures table.routes.None? ==> r.routes == []
    ensures table.routes.Some? ==>
              |r.routes| == |table.routes.value| && forall i :: 0 <= i < |r.routes| ==> r.routes[i] == MapRoute(table.routes.value[i])
  {
    RouteTableModel(
      table.routeTableId.GetOr("unknown-route-table"),
      TagValue(table.tags, "Name"),
      IsMain(table),
      table.vpcId.GetOr("?vpc"),
      SubnetAssociations(table),
      MapOpt(table.routes, MapRoute))
  }

  /** `getAllRouteTables`: one model per table, in order. */
  function GetAllRouteTables(response: Option<seq<RouteTable>>): (r: seq<RouteTableModel>)
    ensures response.None? ==> r == []
    ensures response.Some? ==> |r| == |response.value| && forall i :: 0 <= i < |r| ==> r[i] == MapRouteTable(response.value[i])
  {
    MapOpt(response, MapRouteTable)
  }

  /** The main association never lists a subnet: a table whose only
      association is the main one is main and associated with no subnet. */
  lemma MainAssociationListsNoSubnet(table: RouteTable, a: RouteTableAssociation)
    requires table.associations == Some([a]) && IsMainAssociation(a)
    ensures MapRouteTable(table).isMain
    ensures MapRouteTable(table).subnetAssociations == []
  {
    assert a in table.associations.value;
  }

  /** The main flag and the subnet list partition the associations: on a
      main table the main association is never listed, so fewer subnets
      are listed than the table has associations. */
  lemma MainTableListsFewerSubnets(table: RouteTable)
    requires IsMain(table)
    ensures table.associations.Some?
    ensures |MapRouteTable(table).subnetAssociations| < |table.associations.value|
  {
    var assocs := table.associations.value;
    var a :| a in assocs && IsMainAssociation(a);
    FilterShorter(assocs, IsSubnetAssociation, a);
  }
}
