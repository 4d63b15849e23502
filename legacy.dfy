/** src/api-calls.ts: the older single-file snapshot, which the renderers
    read. Mappers it shares verbatim with the split files are the members of
    those modules; this module holds what differs: the RDS claim rule without
    the owner check, NAT interfaces as records, the shorter next-hop chain
    without `propagated`, and the snapshot record handed to the renderers. */
module Legacy {
  import opened Common
  import Helper
  import Enis
  import Rds
  import NatGateways
  import RouteTables
  import Vpcs
  import Subnets
  import Nacls
  import SecGroups
  import VpcPeerings
  import InternetGateways
  import VpcEndpoints
  import Ecs
  import LoadBalancers

  /** The legacy RDS rule (api-calls.ts:566-571): description, subnet
      membership and a shared security group; no owner check. */
  predicate OwnsLegacy(eni: Enis.EniModel, subnets: seq<string>, secGroups: seq<string>) {
    && eni.description == Some(Rds.RdsDescription)
    && eni.subnetId in subnets
    && |Helper.IntersectionOf(eni.secGroups, secGroups)| > 0
  }

  /** The legacy claim rule for given subnets and groups as a value. */
  function ClaimsLegacy(subnets: seq<string>, secGroups: seq<string>): Enis.EniModel -> bool {
    (e: Enis.EniModel) => OwnsLegacy(e, subnets, secGroups)
  }

  function MapDbInstance(db: Rds.DbInstance, enis: seq<Enis.EniModel>): (r: Rds.RdsModel)
    ensures r.id == db.dbInstanceIdentifier.GetOr("unknown-rds-instance")
    ensures r.arn == db.dbInstanceArn.GetOr("unknown-rds-instance")
    ensures r.logicalId == TagValue(db.tagList, "aws:cloudformation:logical-id")
    ensures db.dbSubnetGroup.None? ==> r.vpcId == "?vpc" && r.subnets == [] && r.enis == []
    ensures db.dbSubnetGroup.Some? ==> r.vpcId == db.dbSubnetGroup.value.vpcId.GetOr("?vpc")
    ensures r.subnets == Rds.DbSubnets(db) && r.secGroups == Rds.DbSecGroups(db)
    ensures forall e :: e in enis && OwnsLegacy(e, r.subnets, r.secGroups) ==> e.id in r.enis
    ensures forall id :: id in r.enis ==>
              exists e :: e in enis && e.id == id && e.description == Some(Rds.RdsDescription) &&
                e.subnetId in r.subnets && (exists g :: g in e.secGroups && g in r.secGroups)
    ensures Subseq(r.enis, Enis.Ids(enis))
    ensures Enis.IdsOfAccepted(r.enis, enis, ClaimsLegacy(r.subnets, r.secGroups))
  {
    var subnets := Rds.DbSubnets(db);
    var secGroups := Rds.DbSecGroups(db);
    Rds.RdsModel(
      db.dbInstanceIdentifier.GetOr("unknown-rds-instance"),
      db.dbInstanceArn.GetOr("unknown-rds-instance"),
      TagValue(db.tagList, "aws:cloudformation:logical-id"),
      if db.dbSubnetGroup.Some? then db.dbSubnetGroup.value.vpcId.GetOr("?vpc") else "?vpc",
      subnets,
      secGroups,
      Enis.ClaimedIds(enis, ClaimsLegacy(subnets, secGroups)))
  }

  function GetAllRdsInstances(response: Option<seq<Rds.DbInstance>>, enis: seq<Enis.EniModel>): (r: seq<Rds.RdsModel>)
    ensures response.None? ==> r == []
    ensures response.Some? ==> |r| == |response.value| && forall i :: 0 <= i < |r| ==> r[i] == MapDbInstance(response.value[i], enis)
  {
    MapOpt(response, (db: Rds.DbInstance) => MapDbInstance(db, enis))
  }

  /** The newer rule only adds a conjunct: its claims are an order-preserving
      subsequence of the legacy claims ... */
  lemma SplitClaimsWithinLegacy(db: Rds.DbInstance, enis: seq<Enis.EniModel>)
    ensures Subseq(Rds.MapDbInstance(db, enis).enis, MapDbInstance(db, enis).enis)
  {
    var subnets, secGroups := Rds.DbSubnets(db), Rds.DbSecGroups(db);
    var p := Rds.Claims(subnets, secGroups);
    var q := ClaimsLegacy(subnets, secGroups);
    FilterMonotone(enis, p, q);
    MapSubseq(Filter(enis, p), Filter(enis, q), (e: Enis.EniModel) => e.id);
  }

  /** ... and the same list when every interface is owned by "amazon-rds". */
  lemma SameClaimsWhenOwnedByRds(db: Rds.DbInstance, enis: seq<Enis.EniModel>)
    requires forall e :: e in enis ==> e.interfaceOwner == Some(Rds.RdsOwner)
    ensures Rds.MapDbInstance(db, enis).enis == MapDbInstance(db, enis).enis
  {
    var subnets, secGroups := Rds.DbSubnets(db), Rds.DbSecGroups(db);
    FilterCongruent(enis, Rds.Claims(subnets, secGroups), ClaimsLegacy(subnets, secGroups));
  }

  /** The legacy rule claims the example interface whatever its owner. */
  lemma ExampleClaimsLegacy(id: string, owner: string)
    ensures MapDbInstance(Rds.ExampleDb(id), [Rds.ExampleEni(owner)]).enis == ["eni-1"]
  {
    Rds.ExampleDbLists(id);
    var e := Rds.ExampleEni(owner);
    var r := MapDbInstance(Rds.ExampleDb(id), [e]);
    Enis.OneCandidate(r.enis, e);
    assert OwnsLegacy(e, r.subnets, r.secGroups);
  }

  /** An interface owned by another service is claimed by the legacy rule only. */
  lemma LegacyIgnoresOwner()
    ensures Rds.MapDbInstance(Rds.ExampleDb("db-1"), [Rds.ExampleEni("amazon-ec2")]).enis == []
    ensures MapDbInstance(Rds.ExampleDb("db-1"), [Rds.ExampleEni("amazon-ec2")]).enis == ["eni-1"]
  {
    Rds.ExampleClaims("db-1", "amazon-ec2");
    ExampleClaimsLegacy("db-1", "amazon-ec2");
  }

  /** A NAT gateway address as the legacy snapshot records it. */
  datatype NatEni = NatEni(eni: string, privateIp: string, publicIp: string)
  datatype NatGatewayModel = NatGatewayModel(id: string, name: Option<string>, subnetId: string, enis: seq<NatEni>)

  function MapNatAddress(a: NatGateways.NatGatewayAddress): (r: NatEni)
    ensures r.eni == a.networkInterfaceId.GetOr("?eni")
    ensures r.privateIp == a.privateIp.GetOr("?ipv4") && r.publicIp == a.publicIp.GetOr("?ipv4")
  {
    NatEni(a.networkInterfaceId.GetOr("?eni"), a.privateIp.GetOr("?ipv4"), a.publicIp.GetOr("?ipv4"))
  }

  function MapNatGateway(gw: NatGateways.NatGateway): (r: NatGatewayModel)
    ensures r.id == gw.natGatewayId.GetOr("unknown-nat-gw") && r.name == TagValue(gw.tags, "Name")
    ensures r.subnetId == gw.subnetId.GetOr("?subnet")
    ensures gw.natGatewayAddresses.None? ==> r.enis == []
    ensures gw.natGatewayAddresses.Some? ==>
              |r.enis| == |gw.natGatewayAddresses.value| &&
              forall i :: 0 <= i < |r.enis| ==> r.enis[i] == MapNatAddress(gw.natGatewayAddresses.value[i])
  {
    NatGatewayModel(
      gw.natGatewayId.GetOr("unknown-nat-gw"),
      TagValue(gw.tags, "Name"),
      gw.subnetId.GetOr("?subnet"),
      MapOpt(gw.natGatewayAddresses, MapNatAddress))
  }

  function GetAllNatGateways(response: Option<seq<NatGateways.NatGateway>>): (r: seq<NatGatewayModel>)
    ensures response.None? ==> r == []
    ensures response.Some? ==> |r| == |response.value| && forall i :: 0 <= i < |r| ==> r[i] == MapNatGateway(response.value[i])
  {
    MapOpt(response, MapNatGateway)
  }

  function NatEniIds(gw: NatGatewayModel): seq<string> {
    Map(gw.enis, (e: NatEni) => e.eni)
  }

  /** The record's `eni` field is the id the newer snapshot stores bare: the
      two NAT models carry the same interface list. */
  lemma NatEnisAgree(gw: NatGateways.NatGateway)
    ensures NatEniIds(MapNatGateway(gw)) == NatGateways.MapNatGateway(gw).enis
    ensures MapNatGateway(gw).subnetId == NatGateways.MapNatGateway(gw).subnetId
  {
  }

  datatype RouteModel = RouteModel(destination: string, via: string, state: string)
  datatype RouteTableModel = RouteTableModel(
    id: string,
    name: Option<string>,
    isMain: bool,
    vpcId: string,
    subnetAssociations: seq<string>,
    routes: seq<RouteModel>)

  /** The legacy next-hop candidates, in the order of api-calls.ts:400-405. */
  function ViaCandidates(route: RouteTables.Route): seq<Option<string>> {
    [route.gatewayId, route.localGatewayId, route.natGatewayId, route.networkInterfaceId,
     route.transitGatewayId, route.vpcPeeringConnectionId]
  }

  function MapRoute(route: RouteTables.Route): (r: RouteModel)
    ensures r.destination == RouteTables.MapRoute(route).destination
    ensures (forall i :: 0 <= i < 6 ==> ViaCandidates(route)[i].None?) ==> r.via == "unknown"
    ensures forall i :: 0 <= i < 6 && ViaCandidates(route)[i].Some? && (forall j :: 0 <= j < i ==> ViaCandidates(route)[j].None?) ==>
              r.via == ViaCandidates(route)[i].value
    ensures r.state == route.state.GetOr("unknown")
  {
    RouteModel(
      RouteTables.FirstPresent(RouteTables.DestinationCandidates(route), "unknown"),
      RouteTables.FirstPresent(ViaCandidates(route), "unknown"),
      route.state.GetOr("unknown"))
  }

  function MapRouteTable(table: RouteTables.RouteTable): (r: RouteTableModel)
    ensures r.id == table.routeTableId.GetOr("unknown-route-table") && r.name == TagValue(table.tags, "Name")
    ensures r.isMain == RouteTables.IsMain(table) && r.vpcId == table.vpcId.GetOr("?vpc")
    ensures r.subnetAssociations == RouteTables.SubnetAssociations(table)
    ensures table.routes.None? ==> r.routes == []
    ensures table.routes.Some? ==>
              |r.routes| == |table.routes.value| && forall i :: 0 <= i < |r.routes| ==> r.routes[i] == MapRoute(table.routes.value[i])
  {
    RouteTableModel(
      table.routeTableId.GetOr("unknown-route-table"),
      TagValue(table.tags, "Name"),
      RouteTables.IsMain(table),
      table.vpcId.GetOr("?vpc"),
      RouteTables.SubnetAssociations(table),
      MapOpt(table.routes, MapRoute))
  }

  function GetAllRouteTables(response: Option<seq<RouteTables.RouteTable>>): (r: seq<RouteTableModel>)
    ensures response.None? ==> r == []
    ensures response.Some? ==> |r| == |response.value| && forall i :: 0 <= i < |r| ==> r[i] == MapRouteTable(response.value[i])
  {
    MapOpt(response, MapRouteTable)
  }

  /** Without carrier, egress-only and instance next hops the two chains
      agree; the newer one only adds candidates. */
  lemma {:induction false} ViaAgreesWithoutNewHops(route: RouteTables.Route)
    requires route.carrierGatewayId.None? && route.egressOnlyInternetGatewayId.None? && route.instanceId.None?
    ensures MapRoute(route).via == RouteTables.MapRoute(route).via
  {
    var split := RouteTables.ViaCandidates(route);
    var legacy := ViaCandidates(route);
    assert split[2..] == [legacy[0], None] + legacy[1..];
    assert split[3..] == [None] + legacy[1..];
    calc {
      RouteTables.FirstPresent(split, "unknown");
      RouteTables.FirstPresent(split[1..], "unknown");
      { assert split[1..][1..] == split[2..]; }
      RouteTables.FirstPresent(split[2..], "unknown");
    }
    if legacy[0].None? {
      assert split[2..][1..] == split[3..];
      assert split[3..][1..] == legacy[1..];
    } else {
      assert split[2..][0] == legacy[0];
    }
  }

  /** A route through an instance that also names its interface: the newer
      chain shows the instance, the legacy one the interface. */
  lemma InstanceRouteDiffers(route: RouteTables.Route)
    requires route == RouteTables.Route(Some("0.0.0.0/0"), None, None, None, None, None, Some("i-1"),
                                        None, None, Some("eni-1"), None, None, Some("active"), None)
    ensures RouteTables.MapRoute(route).via == "i-1"
    ensures MapRoute(route).via == "eni-1"
  {
    assert RouteTables.ViaCandidates(route)[3] == Some("i-1");
    assert ViaCandidates(route)[3] == Some("eni-1");
  }

  /** The snapshot `getAllResources` assembles and the renderers read. */
  datatype AllResources = AllResources(
    vpcs: seq<Vpcs.VpcModel>,
    subnets: seq<Subnets.SubnetModel>,
    enis: seq<Enis.EniModel>,
    nacls: seq<Nacls.NaclModel>,
    secGroups: seq<SecGroups.SecGroupModel>,
    vpcPeerings: seq<VpcPeerings.VpcPeeringModel>,
    intGws: seq<InternetGateways.InternetGatewayModel>,
    natGws: seq<NatGatewayModel>,
    routeTables: seq<RouteTableModel>,
    vpcEndpoints: seq<VpcEndpoints.VpcEndpointModel>,
    ecsTasks: seq<Ecs.EcsTaskModel>,
    loadBalancers: seq<LoadBalancers.LoadBalancerModel>,
    rds: seq<Rds.RdsModel>)
}
