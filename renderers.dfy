/** src/renderers.ts: which records the tree shows under each VPC and each
    subnet, the interfaces no owner accounts for, the in-place effects of
    rendering (the NACL rule sort and the subnet-id assignment on line 149),
    and the two text helpers whose branches matter. Output itself is left
    out: a render is modelled by the records it selects, in order. */
module Renderers {
  import opened Common
  import Helper
  import Enis
  import Legacy
  import Vpcs
  import Subnets
  import Nacls
  import SecGroups
  import VpcPeerings
  import InternetGateways
  import VpcEndpoints
  import Ecs
  import LoadBalancers
  import Rds

  /** `makeNamePair(a, b)`: both present gives a green name and a grey label;
      a lone name or a lone label is shown green. */
  function MakeNamePair(a: Option<string>, b: Option<string>): (r: Option<string>)
    ensures Truthy(a) && Truthy(b) ==> r == Some(Green(a.value) + " / " + Grey(b.value))
    ensures Truthy(a) && !Truthy(b) ==> r == Some(Green(a.value))
    ensures !Truthy(a) && Truthy(b) ==> r == Some(Green(b.value))
    ensures r.None? <==> !Truthy(a) && !Truthy(b)
  {
    if Truthy(a) && Truthy(b) then Some(Green(a.value) + " / " + Grey(b.value))
    else if Truthy(a) then Some(Green(a.value))
    else if Truthy(b) then Some(Green(b.value))
    else None
  }

  /** Unlike `makeName`, a lone label is green rather than grey, and a long
      name is kept; for a short name with a label the two agree. */
  lemma NamePairVsMakeName(a: string, b: string)
    requires b != ""
    ensures MakeNamePair(None, Some(b)) != Helper.MakeName(None, Some(b))
    ensures a != "" && |a| <= 50 ==> MakeNamePair(Some(a), Some(b)) == Helper.MakeName(Some(a), Some(b))
    ensures |a| > 50 ==> MakeNamePair(Some(a), Some(b)) != Helper.MakeName(Some(a), Some(b))
  {
    AnsiOpens("32", b, "");
    AnsiOpens("90", b, "");
    if |a| > 50 {
      AnsiOpens("32", a, " / " + Grey(b));
      AnsiOpens("90", b, "");
    }
  }

  /** A coloured text begins with its colour code, at positions 2 and 3. */
  lemma AnsiOpens(code: string, s: string, rest: string)
    requires |code| == 2
    ensures |Ansi(code, s) + rest| >= 4 && (Ansi(code, s) + rest)[2..4] == code
    ensures (Ansi(code, s) + rest)[2] == code[0] && (Ansi(code, s) + rest)[3] == code[1]
  {
    assert (Ansi(code, s) + rest)[2] == code[0] && (Ansi(code, s) + rest)[3] == code[1];
  }

  /** The address and port text of the placeholder egress rule AWS CDK puts on
      a security group created with `allowAllOutbound: false` (ICMP type 252,
      code 86, to 255.255.255.255/32), which matches no real traffic. */
  const DenyAllPeer := "255.255.255.255/32"
  const DenyAllPort := "252-86"

  /** `egressLineFromRule`: the DENY form exactly for the single peer
      255.255.255.255/32 on port text "252-86", the ALLOW form otherwise. */
  function EgressLineFromRule(rule: SecGroups.RuleModel): (r: string)
    ensures StartsWith(r, Red("DENY")) <==> rule.peers == [DenyAllPeer] && rule.port == DenyAllPort
    ensures rule.peers == [DenyAllPeer] && rule.port == DenyAllPort ==>
              r == Red("DENY") + " to [" + Red("any address") + "] to " + Red("any ports")
    ensures !(rule.peers == [DenyAllPeer] && rule.port == DenyAllPort) ==>
              r == Green("ALLOW") + " to [" + Cyan(Join(rule.peers, ", ")) + "] to " + Cyan(rule.port)
  {
    if |rule.peers| == 1 && DenyAllPeer in rule.peers && rule.port == DenyAllPort then
      var r := Red("DENY") + " to [" + Red("any address") + "] to " + Red("any ports");
      assert rule.peers == [rule.peers[0]];
      assert r[..|Red("DENY")|] == Red("DENY");
      r
    else
      var r := Green("ALLOW") + " to [" + Cyan(Join(rule.peers, ", ")) + "] to " + Cyan(rule.port);
      AnsiOpens("32", "ALLOW", " to [" + Cyan(Join(rule.peers, ", ")) + "] to " + Cyan(rule.port));
      AnsiOpens("31", "DENY", "");
      assert Red("DENY") + "" == Red("DENY");
      assert r[3] == '2' && Red("DENY")[3] == '1';
      r
  }


  /** The placeholder port text is what the rule mapper produces for the
      port pair 252 to 86. */
  lemma DenyAllPortFromMapper(rule: SecGroups.IpPermission)
    requires rule.fromPort == Some(252) && rule.toPort == Some(86)
    ensures SecGroups.PortText(rule) == DenyAllPort
  {
    assert NatText(252) == "252" by {
      assert NatText(25) == "25" by { assert NatText(2) == "2"; }
    }
    assert NatText(86) == "86" by { assert NatText(8) == "8"; }
  }

  // ---- Placement under a VPC (renderers.ts:21-44) ----

  predicate RouteTableInVpc(t: Legacy.RouteTableModel, vpc: Vpcs.VpcModel) { t.isMain && t.vpcId == vpc.id }
  predicate IgwInVpc(g: InternetGateways.InternetGatewayModel, vpc: Vpcs.VpcModel) { vpc.id in g.vpcIds }
  predicate PeeringInVpc(p: VpcPeerings.VpcPeeringModel, vpc: Vpcs.VpcModel) {
    p.requester.vpcId == vpc.id || p.accepter.vpcId == vpc.id
  }
  predicate EndpointInVpc(ep: VpcEndpoints.VpcEndpointModel, vpc: Vpcs.VpcModel) { ep.vpcId == vpc.id && |ep.enis| == 0 }
  predicate NaclInVpc(n: Nacls.NaclModel, vpc: Vpcs.VpcModel) { n.vpcId == vpc.id && |n.associatedSubnets| == 0 }
  predicate SubnetInVpc(s: Subnets.SubnetModel, vpc: Vpcs.VpcModel) { s.vpcId == vpc.id }

  datatype VpcView = VpcView(
    routeTables: seq<Legacy.RouteTableModel>,
    intGws: seq<InternetGateways.InternetGatewayModel>,
    peerings: seq<VpcPeerings.VpcPeeringModel>,
    endpoints: seq<VpcEndpoints.VpcEndpointModel>,
    nacls: seq<Nacls.NaclModel>,
    subnets: seq<Subnets.SubnetModel>)

  /** What `renderVpcs` selects for one VPC, each list in snapshot order. */
  function VpcPlacement(vpc: Vpcs.VpcModel, all: Legacy.AllResources): VpcView
  {
    VpcView(
      Filter(all.routeTables, (t: Legacy.RouteTableModel) => RouteTableInVpc(t, vpc)),
      Filter(all.intGws, (g: InternetGateways.InternetGatewayModel) => IgwInVpc(g, vpc)),
      Filter(all.vpcPeerings, (p: VpcPeerings.VpcPeeringModel) => PeeringInVpc(p, vpc)),
      Filter(all.vpcEndpoints, (ep: VpcEndpoints.VpcEndpointModel) => EndpointInVpc(ep, vpc)),
      Filter(all.nacls, (n: Nacls.NaclModel) => NaclInVpc(n, vpc)),
      Filter(all.subnets, (s: Subnets.SubnetModel) => SubnetInVpc(s, vpc)))
  }

  /** Each list under a VPC holds exactly the snapshot's records that the
      corresponding test accepts, in snapshot order. */
  lemma VpcPlacementSelects(vpc: Vpcs.VpcModel, all: Legacy.AllResources)
    ensures forall t :: t in VpcPlacement(vpc, all).routeTables <==> t in all.routeTables && RouteTableInVpc(t, vpc)
    ensures forall g :: g in VpcPlacement(vpc, all).intGws <==> g in all.intGws && IgwInVpc(g, vpc)
    ensures forall p :: p in VpcPlacement(vpc, all).peerings <==> p in all.vpcPeerings && PeeringInVpc(p, vpc)
    ensures forall ep :: ep in VpcPlacement(vpc, all).endpoints <==> ep in all.vpcEndpoints && EndpointInVpc(ep, vpc)
    ensures forall n :: n in VpcPlacement(vpc, all).nacls <==> n in all.nacls && NaclInVpc(n, vpc)
    ensures forall s :: s in VpcPlacement(vpc, all).subnets <==> s in all.subnets && SubnetInVpc(s, vpc)
    ensures Subseq(VpcPlacement(vpc, all).routeTables, all.routeTables) &&
            Subseq(VpcPlacement(vpc, all).intGws, all.intGws)
    ensures Subseq(VpcPlacement(vpc, all).peerings, all.vpcPeerings) &&
            Subseq(VpcPlacement(vpc, all).endpoints, all.vpcEndpoints)
    ensures Subseq(VpcPlacement(vpc, all).nacls, all.nacls) && Subseq(VpcPlacement(vpc, all).subnets, all.subnets)
  {
  }

  // ---- Placement under a subnet (renderers.ts:135-184) ----

  predicate RouteTableInSubnet(t: Legacy.RouteTableModel, net: Subnets.SubnetModel) { net.id in t.subnetAssociations }
  predicate NaclInSubnet(n: Nacls.NaclModel, net: Subnets.SubnetModel) { net.id in n.associatedSubnets }
  predicate NatGwInSubnet(g: Legacy.NatGatewayModel, net: Subnets.SubnetModel) { g.subnetId == net.id }
  predicate EndpointInSubnet(ep: VpcEndpoints.VpcEndpointModel, net: Subnets.SubnetModel, enisInThisSubnet: seq<string>) {
    ep.vpcId == net.vpcId && |ep.enis| > 0 && exists e :: e in ep.enis && e in enisInThisSubnet
  }
  predicate LoadBalancerInSubnet(lb: LoadBalancers.LoadBalancerModel, net: Subnets.SubnetModel) {
    lb.vpcId == net.vpcId && net.id in lb.subnets
  }
  predicate TaskInSubnet(t: Ecs.EcsTaskModel, net: Subnets.SubnetModel) { net.id in t.subnetIds }
  predicate DbInSubnet(db: Rds.RdsModel, net: Subnets.SubnetModel) { net.id in db.subnets }

  /** Every interface id some owner in the snapshot claims: NAT gateways,
      endpoints, load balancers, ECS tasks and RDS instances. */
  function NatClaims(all: Legacy.AllResources): seq<string> { Flatten(Map(all.natGws, Legacy.NatEniIds)) }
  function EndpointClaims(all: Legacy.AllResources): seq<string> {
    Flatten(Map(all.vpcEndpoints, (ep: VpcEndpoints.VpcEndpointModel) => ep.enis))
  }
  function LoadBalancerClaims(all: Legacy.AllResources): seq<string> {
    Flatten(Map(all.loadBalancers, (lb: LoadBalancers.LoadBalancerModel) => lb.enis))
  }
  function TaskClaims(all: Legacy.AllResources): seq<string> { Flatten(Map(all.ecsTasks, (t: Ecs.EcsTaskModel) => t.enis)) }
  function DbClaims(all: Legacy.AllResources): seq<string> { Flatten(Map(all.rds, (db: Rds.RdsModel) => db.enis)) }

  predicate Claimed(all: Legacy.AllResources, id: string) {
    || (exists g :: g in all.natGws && id in Legacy.NatEniIds(g))
    || (exists ep :: ep in all.vpcEndpoints && id in ep.enis)
    || (exists lb :: lb in all.loadBalancers && id in lb.enis)
    || (exists t :: t in all.ecsTasks && id in t.enis)
    || (exists db :: db in all.rds && id in db.enis)
  }

  function AllClaims(all: Legacy.AllResources): (r: seq<string>)
    ensures forall id :: id in r <==> Claimed(all, id)
  {
    var r := NatClaims(all) + EndpointClaims(all) + LoadBalancerClaims(all) + TaskClaims(all) + DbClaims(all);
    assert forall id :: id in r <==> Claimed(all, id) by {
      forall id ensures id in r <==> Claimed(all, id) {
        FlattenClaims(all.natGws, Legacy.NatEniIds, id);
        FlattenClaims(all.vpcEndpoints, (ep: VpcEndpoints.VpcEndpointModel) => ep.enis, id);
        FlattenClaims(all.loadBalancers, (lb: LoadBalancers.LoadBalancerModel) => lb.enis, id);
        FlattenClaims(all.ecsTasks, (t: Ecs.EcsTaskModel) => t.enis, id);
        FlattenClaims(all.rds, (db: Rds.RdsModel) => db.enis, id);
      }
    }
    r
  }

  /** `owners.flatMap(f)` holds an id iff some owner's list does. */
  lemma FlattenClaims<O>(owners: seq<O>, f: O -> seq<string>, id: string)
    ensures id in Flatten(Map(owners, f)) <==> exists o :: o in owners && id in f(o)
  {
    var lists := Map(owners, f);
    FlattenMembership(lists, id);
    if exists o :: o in owners && id in f(o) {
      var o :| o in owners && id in f(o);
      var i :| 0 <= i < |owners| && owners[i] == o;
      assert id in lists[i];
    }
  }

  /** `unknownEnis` (renderers.ts:179-184): the subnet's interface ids, in
      order, less every id any owner claims. An id is reported iff no owner
      claims it, so one claimed by two owners is not reported either. */
  function UnknownEnis(enisInThisSubnet: seq<string>, all: Legacy.AllResources): (r: seq<string>)
    ensures r == Helper.Without(enisInThisSubnet, AllClaims(all))
    ensures forall id :: id in r <==> id in enisInThisSubnet && !Claimed(all, id)
    ensures r == [] <==> forall id :: id in enisInThisSubnet ==> Claimed(all, id)
    ensures Subseq(r, enisInThisSubnet)
  {
    var r := Helper.Without(Helper.Without(Helper.Without(Helper.Without(Helper.Without(
               enisInThisSubnet, NatClaims(all)), EndpointClaims(all)), LoadBalancerClaims(all)), TaskClaims(all)), DbClaims(all));
    var a, b, c, d, e := NatClaims(all), EndpointClaims(all), LoadBalancerClaims(all), TaskClaims(all), DbClaims(all);
    Helper.WithoutWithout(enisInThisSubnet, a, b);
    Helper.WithoutWithout(enisInThisSubnet, a + b, c);
    Helper.WithoutWithout(enisInThisSubnet, a + b + c, d);
    Helper.WithoutWithout(enisInThisSubnet, a + b + c + d, e);
    r
  }

  datatype SubnetView = SubnetView(
    routeTables: seq<Legacy.RouteTableModel>,
    nacls: seq<Nacls.NaclModel>,
    natGws: seq<Legacy.NatGatewayModel>,
    endpoints: seq<VpcEndpoints.VpcEndpointModel>,
    loadBalancers: seq<LoadBalancers.LoadBalancerModel>,
    ecsTasks: seq<Ecs.EcsTaskModel>,
    rds: seq<Rds.RdsModel>,
    unknownEnis: seq<string>)

  /** What `renderSubnets` selects for one subnet, given the interface ids
      line 149 produced for it. */
  function SubnetPlacement(net: Subnets.SubnetModel, all: Legacy.AllResources, enisInThisSubnet: seq<string>): SubnetView
  {
    SubnetView(
      Filter(all.routeTables, (t: Legacy.RouteTableModel) => RouteTableInSubnet(t, net)),
      Filter(all.nacls, (n: Nacls.NaclModel) => NaclInSubnet(n, net)),
      Filter(all.natGws, (g: Legacy.NatGatewayModel) => NatGwInSubnet(g, net)),
      Filter(all.vpcEndpoints, (ep: VpcEndpoints.VpcEndpointModel) => EndpointInSubnet(ep, net, enisInThisSubnet)),
      Filter(all.loadBalancers, (lb: LoadBalancers.LoadBalancerModel) => LoadBalancerInSubnet(lb, net)),
      Filter(all.ecsTasks, (t: Ecs.EcsTaskModel) => TaskInSubnet(t, net)),
      Filter(all.rds, (db: Rds.RdsModel) => DbInSubnet(db, net)),
      UnknownEnis(enisInThisSubnet, all))
  }

  /** Each list under a subnet holds exactly the snapshot's records that the
      corresponding test accepts, in snapshot order; the unaccounted
      interfaces are those of `UnknownEnis`. */
  lemma SubnetPlacementSelects(net: Subnets.SubnetModel, all: Legacy.AllResources, enisInThisSubnet: seq<string>)
    ensures forall t :: t in SubnetPlacement(net, all, enisInThisSubnet).routeTables <==>
              t in all.routeTables && RouteTableInSubnet(t, net)
    ensures forall n :: n in SubnetPlacement(net, all, enisInThisSubnet).nacls <==>
              n in all.nacls && NaclInSubnet(n, net)
    ensures forall g :: g in SubnetPlacement(net, all, enisInThisSubnet).natGws <==>
              g in all.natGws && NatGwInSubnet(g, net)
    ensures forall ep :: ep in SubnetPlacement(net, all, enisInThisSubnet).endpoints <==>
              ep in all.vpcEndpoints && EndpointInSubnet(ep, net, enisInThisSubnet)
    ensures forall lb :: lb in SubnetPlacement(net, all, enisInThisSubnet).loadBalancers <==>
              lb in all.loadBalancers && LoadBalancerInSubnet(lb, net)
    ensures forall t :: t in SubnetPlacement(net, all, enisInThisSubnet).ecsTasks <==>
              t in all.ecsTasks && TaskInSubnet(t, net)
    ensures forall db :: db in SubnetPlacement(net, all, enisInThisSubnet).rds <==> db in all.rds && DbInSubnet(db, net)
    ensures SubnetPlacement(net, all, enisInThisSubnet).unknownEnis == UnknownEnis(enisInThisSubnet, all)
    ensures Subseq(SubnetPlacement(net, all, enisInThisSubnet).routeTables, all.routeTables) &&
            Subseq(SubnetPlacement(net, all, enisInThisSubnet).nacls, all.nacls) &&
            Subseq(SubnetPlacement(net, all, enisInThisSubnet).natGws, all.natGws)
    ensures Subseq(SubnetPlacement(net, all, enisInThisSubnet).endpoints, all.vpcEndpoints) &&
            Subseq(SubnetPlacement(net, all, enisInThisSubnet).loadBalancers, all.loadBalancers)
    ensures Subseq(SubnetPlacement(net, all, enisInThisSubnet).ecsTasks, all.ecsTasks) &&
            Subseq(SubnetPlacement(net, all, enisInThisSubnet).rds, all.rds)
  {
  }

  /** A NACL and an endpoint are each shown at one level only: under the VPC
      when they have no subnet association or interface, under subnets
      otherwise. */
  lemma OneLevelOnly(vpc: Vpcs.VpcModel, net: Subnets.SubnetModel, all: Legacy.AllResources, enisInThisSubnet: seq<string>)
    ensures forall n :: n in VpcPlacement(vpc, all).nacls ==> n !in SubnetPlacement(net, all, enisInThisSubnet).nacls
    ensures forall ep :: ep in VpcPlacement(vpc, all).endpoints ==> ep !in SubnetPlacement(net, all, enisInThisSubnet).endpoints
    ensures forall ep :: ep in VpcPlacement(vpc, all).endpoints ==> ep.enis == []
  {
    VpcPlacementSelects(vpc, all);
    SubnetPlacementSelects(net, all, enisInThisSubnet);
  }

  // ---- Line 149 ----

  /** The selection line 149 makes as written, given the ids of all
      interfaces in order: the callback assigns `net.id`, so every interface
      passes when that id is non-empty and none when it is empty. */
  function AssignedSelection(allIds: seq<string>, netId: string): (r: seq<string>)
    ensures netId != "" ==> r == allIds
    ensures netId == "" ==> r == []
  {
    if netId != "" then allIds else []
  }

  /** Every interface object after line 149 has run: the subnet id is now
      `net.id`, everything else as before. */
  function Reassigned(enis: seq<Enis.EniModel>, netId: string): (r: seq<Enis.EniModel>)
    ensures |r| == |enis|
    ensures forall i :: 0 <= i < |enis| ==> r[i] == enis[i].(subnetId := netId)
  {
    Map(enis, (e: Enis.EniModel) => e.(subnetId := netId))
  }

  /** The intended test of line 149 as a value: the interface is in the subnet. */
  function InSubnet(netId: string): Enis.EniModel -> bool {
    (e: Enis.EniModel) => e.subnetId == netId
  }

  /** The reading the surrounding code relies on: the ids of the interfaces
      whose subnet id is the subnet's. */
  function EnisInSubnet(enis: seq<Enis.EniModel>, netId: string): (r: seq<string>)
    ensures forall id :: id in r <==> exists e :: e in enis && e.subnetId == netId && e.id == id
    ensures Subseq(r, Enis.Ids(enis))
    // One id per interface in the subnet, in interface order.
    ensures Enis.IdsOfAccepted(r, enis, InSubnet(netId))
  {
    Enis.ClaimedIds(enis, InSubnet(netId))
  }

  /** renderers.ts:149 as written: the filter callback overwrites each
      interface's subnet id in place, and the ids of those it lets through
      are collected. */
  method EnisInThisSubnet(enis: array<Enis.EniModel>, netId: string) returns (ids: seq<string>)
    modifies enis
    ensures enis[..] == Reassigned(old(enis[..]), netId)
    ensures ids == AssignedSelection(Enis.Ids(old(enis[..])), netId)
  {
    ids := [];
    var i := 0;
    while i < enis.Length
      invariant 0 <= i <= enis.Length
      invariant forall k :: 0 <= k < i ==> enis[k] == old(enis[k]).(subnetId := netId)
      invariant forall k :: i <= k < enis.Length ==> enis[k] == old(enis[k])
      invariant netId != "" ==> ids == Enis.Ids(old(enis[..]))[..i]
      invariant netId == "" ==> ids == []
    {
      enis[i] := enis[i].(subnetId := netId);
      if netId != "" {
        ids := ids + [enis[i].id];
      }
      i := i + 1;
    }
    assert Enis.Ids(old(enis[..]))[..i] == Enis.Ids(old(enis[..]));
  }

  /** The assignment leaves every id in place. */
  lemma ReassignedKeepsIds(enis: seq<Enis.EniModel>, netId: string)
    ensures Enis.Ids(Reassigned(enis, netId)) == Enis.Ids(enis)
  {
    var a, b := Enis.Ids(Reassigned(enis, netId)), Enis.Ids(enis);
    assert |a| == |b| && forall i :: 0 <= i < |a| ==> a[i] == b[i];
  }

  /** Of two assignments only the second shows. */
  lemma ReassignTwice(enis: seq<Enis.EniModel>, first: string, second: string)
    ensures Reassigned(Reassigned(enis, first), second) == Reassigned(enis, second)
  {
    var a, b := Reassigned(Reassigned(enis, first), second), Reassigned(enis, second);
    assert |a| == |b| && forall i :: 0 <= i < |a| ==> a[i] == b[i];
  }

  /** An interface of another subnet is selected as written, and not by the
      intended comparison. */
  lemma ForeignInterfaceSelected()
    ensures AssignedSelection(Enis.Ids([Rds.ExampleEni("amazon-ec2")]), "subnet-2") == ["eni-1"]
    ensures EnisInSubnet([Rds.ExampleEni("amazon-ec2")], "subnet-2") == []
  {
    var e := Rds.ExampleEni("amazon-ec2");
    assert e.subnetId == "subnet-1";
    assert Enis.Ids([e]) == [e.id];
  }

  /** Once line 149 has run for a subnet, even the intended comparison
      finds every interface in it: the damage outlives the line. */
  lemma AssignmentPersists(enis: seq<Enis.EniModel>, netId: string)
    ensures EnisInSubnet(Reassigned(enis, netId), netId) == Enis.Ids(enis)
  {
    var moved := Reassigned(enis, netId);
    var p := InSubnet(netId);
    assert forall e :: e in moved ==> p(e);
    assert Filter(moved, p) == moved;
    ReassignedKeepsIds(enis, netId);
  }

  /** The two readings agree when every interface really is in the subnet. */
  lemma AgreeWhenAllInSubnet(enis: seq<Enis.EniModel>, netId: string)
    requires netId != ""
    requires forall e :: e in enis ==> e.subnetId == netId
    ensures AssignedSelection(Enis.Ids(enis), netId) == EnisInSubnet(enis, netId)
  {
    assert Filter(enis, InSubnet(netId)) == enis;
  }

  /** The interfaces a load balancer or database shows under a subnet
      (renderers.ts:334, 348): in that subnet and in the owner's list. */
  function ShownOwnedEnis(enis: seq<Enis.EniModel>, subnetId: string, owned: seq<string>): (r: seq<Enis.EniModel>)
    ensures forall e :: e in r <==> e in enis && e.subnetId == subnetId && e.id in owned
    // Shown in interface order, each once per occurrence.
    ensures Subseq(r, enis)
  {
    Filter(enis, (e: Enis.EniModel) => e.subnetId == subnetId && e.id in owned)
  }

  /** After line 149, an owner listed under the subnet shows every interface
      it claims, whatever subnet that interface is really in. */
  lemma OwnedEnisShownAfterAssignment(enis: seq<Enis.EniModel>, netId: string, owned: seq<string>, e: Enis.EniModel)
    requires e in enis && e.id in owned
    ensures e.(subnetId := netId) in ShownOwnedEnis(Reassigned(enis, netId), netId, owned)
  {
    var i :| 0 <= i < |enis| && enis[i] == e;
    assert Reassigned(enis, netId)[i] == e.(subnetId := netId);
  }

  // ---- The render loops ----
  // The loops below follow the interface array, whose objects line 149
  // changes for good. The NACL sort that `renderNacls` applies in place to
  // each shown ACL's rule lists is modelled separately (SortByRuleNumber
  // below): the views and the snapshot here keep the rules in API order.

  /** The view of one subnet, given the ids of all interfaces in order. */
  function PlacedSubnet(net: Subnets.SubnetModel, all: Legacy.AllResources, allIds: seq<string>): SubnetView {
    SubnetPlacement(net, all, AssignedSelection(allIds, net.id))
  }

  function Placer(all: Legacy.AllResources, allIds: seq<string>): Subnets.SubnetModel -> SubnetView {
    (net: Subnets.SubnetModel) => PlacedSubnet(net, all, allIds)
  }

  /** One iteration of `renderSubnets`: line 149, then the selections. */
  method RenderSubnet(net: Subnets.SubnetModel, all: Legacy.AllResources, enis: array<Enis.EniModel>)
    returns (view: SubnetView)
    modifies enis
    ensures view == PlacedSubnet(net, all, Enis.Ids(old(enis[..])))
    ensures enis[..] == Reassigned(old(enis[..]), net.id)
  {
    var enisInThisSubnet := EnisInThisSubnet(enis, net.id);
    view := SubnetPlacement(net, all, enisInThisSubnet);
  }

  /** `renderSubnets`: one view per subnet, in order; line 149 runs for each,
      so afterwards every interface carries the last subnet's id. `enis`
      holds the interface objects `all.enis` refers to; the views read them
      only through their ids, which the assignment keeps. */
  method RenderSubnets(subnets: seq<Subnets.SubnetModel>, all: Legacy.AllResources, enis: array<Enis.EniModel>)
    returns (views: seq<SubnetView>)
    modifies enis
    ensures views == Map(subnets, Placer(all, Enis.Ids(old(enis[..]))))
    ensures enis[..] == AfterSubnets(old(enis[..]), subnets)
  {
    ghost var start := enis[..];
    views := [];
    var k := 0;
    while k < |subnets|
      invariant 0 <= k <= |subnets|
      invariant views == Map(subnets[..k], Placer(all, Enis.Ids(start)))
      invariant enis[..] == AfterSubnets(start, subnets[..k])
    {
      AfterSubnetsStep(start, subnets, k);
      var view := RenderSubnet(subnets[k], all, enis);
      MapStep(subnets, k, Placer(all, Enis.Ids(start)), views, view);
      views := views + [view];
      k := k + 1;
    }
    assert subnets[..k] == subnets && start == old(enis[..]);
  }

  /** The interface objects after `renderSubnets`: unchanged for no subnet,
      otherwise every one carries the last subnet's id. */
  function AfterSubnets(enis: seq<Enis.EniModel>, subnets: seq<Subnets.SubnetModel>): seq<Enis.EniModel> {
    if subnets == [] then enis else Reassigned(enis, subnets[|subnets| - 1].id)
  }

  lemma AfterSubnetsStep(enis: seq<Enis.EniModel>, subnets: seq<Subnets.SubnetModel>, k: nat)
    requires k < |subnets|
    ensures AfterSubnets(enis, subnets[..k + 1]) == Reassigned(AfterSubnets(enis, subnets[..k]), subnets[k].id)
    ensures Enis.Ids(AfterSubnets(enis, subnets[..k])) == Enis.Ids(enis)
  {
    if k > 0 {
      ReassignTwice(enis, subnets[k - 1].id, subnets[k].id);
    }
    AfterSubnetsKeepsIds(enis, subnets[..k]);
  }

  lemma AfterSubnetsKeepsIds(enis: seq<Enis.EniModel>, subnets: seq<Subnets.SubnetModel>)
    ensures Enis.Ids(AfterSubnets(enis, subnets)) == Enis.Ids(enis)
  {
    if subnets != [] {
      ReassignedKeepsIds(enis, subnets[|subnets| - 1].id);
    }
  }

  /** Rendering one list of subnets after another leaves the objects as
      rendering the two lists together would. */
  lemma AfterSubnetsAppend(enis: seq<Enis.EniModel>, a: seq<Subnets.SubnetModel>, b: seq<Subnets.SubnetModel>)
    ensures AfterSubnets(AfterSubnets(enis, a), b) == AfterSubnets(enis, a + b)
  {
    if b == [] {
      assert a + b == a;
    } else {
      assert (a + b)[|a + b| - 1] == b[|b| - 1];
      if a != [] {
        ReassignTwice(enis, a[|a| - 1].id, b[|b| - 1].id);
      }
    }
  }

  datatype VpcRender = VpcRender(vpc: Vpcs.VpcModel, view: VpcView, subnets: seq<SubnetView>)

  /** The entry `renderVpcs` produces for one VPC. */
  function PlacedVpc(vpc: Vpcs.VpcModel, all: Legacy.AllResources, allIds: seq<string>): VpcRender {
    VpcRender(vpc, VpcPlacement(vpc, all), Map(VpcPlacement(vpc, all).subnets, Placer(all, allIds)))
  }

  function VpcPlacer(all: Legacy.AllResources, allIds: seq<string>): Vpcs.VpcModel -> VpcRender {
    (vpc: Vpcs.VpcModel) => PlacedVpc(vpc, all, allIds)
  }

  /** `renderVpcs`: one entry per VPC of the snapshot, in order. The `vpcs`
      argument is not read: the loop walks `all.vpcs`. */
  method RenderVpcs(vpcs: seq<Vpcs.VpcModel>, all: Legacy.AllResources, enis: array<Enis.EniModel>)
    returns (out: seq<VpcRender>)
    modifies enis
    ensures out == Map(all.vpcs, VpcPlacer(all, Enis.Ids(old(enis[..]))))
    ensures enis[..] == AfterSubnets(old(enis[..]), SubnetsShown(all.vpcs, all))
  {
    ghost var start := enis[..];
    out := [];
    var k := 0;
    while k < |all.vpcs|
      invariant 0 <= k <= |all.vpcs|
      invariant out == Map(all.vpcs[..k], VpcPlacer(all, Enis.Ids(start)))
      invariant enis[..] == AfterSubnets(start, SubnetsShown(all.vpcs[..k], all))
    {
      AfterSubnetsKeepsIds(start, SubnetsShown(all.vpcs[..k], all));
      var entry := RenderVpc(all.vpcs[k], all, enis);
      AfterSubnetsAppend(start, SubnetsShown(all.vpcs[..k], all), VpcPlacement(all.vpcs[k], all).subnets);
      SubnetsShownStep(all.vpcs, k, all);
      MapStep(all.vpcs, k, VpcPlacer(all, Enis.Ids(start)), out, entry);
      out := out + [entry];
      k := k + 1;
    }
    assert all.vpcs[..k] == all.vpcs && start == old(enis[..]);
  }

  /** The body of `renderVpcs`' loop for one VPC: its own resources, then
      its subnets rendered in order. */
  method RenderVpc(vpc: Vpcs.VpcModel, all: Legacy.AllResources, enis: array<Enis.EniModel>)
    returns (entry: VpcRender)
    modifies enis
    ensures entry == PlacedVpc(vpc, all, Enis.Ids(old(enis[..])))
    ensures enis[..] == AfterSubnets(old(enis[..]), VpcPlacement(vpc, all).subnets)
  {
    var view := VpcPlacement(vpc, all);
    var subnetViews := RenderSubnets(view.subnets, all, enis);
    entry := VpcRender(vpc, view, subnetViews);
  }

  lemma SubnetsShownStep(vpcs: seq<Vpcs.VpcModel>, k: nat, all: Legacy.AllResources)
    requires k < |vpcs|
    ensures SubnetsShown(vpcs[..k + 1], all) == SubnetsShown(vpcs[..k], all) + VpcPlacement(vpcs[k], all).subnets
  {
    assert vpcs[..k + 1][..k] == vpcs[..k];
  }

  /** Every subnet `renderVpcs` renders, in the order it renders them. */
  function SubnetsShown(vpcs: seq<Vpcs.VpcModel>, all: Legacy.AllResources): seq<Subnets.SubnetModel> {
    if vpcs == [] then []
    else SubnetsShown(vpcs[..|vpcs| - 1], all) + VpcPlacement(vpcs[|vpcs| - 1], all).subnets
  }


  // ---- NACL rule order (renderers.ts:104-105, 113-114) ----

  predicate SortedByRuleNumber(rules: seq<Nacls.NaclEntryModel>) {
    forall p, q :: 0 <= p < q < |rules| ==> rules[p].ruleNumber <= rules[q].ruleNumber
  }

  function HasRuleNumber(n: int): Nacls.NaclEntryModel -> bool {
    (e: Nacls.NaclEntryModel) => e.ruleNumber == n
  }

  /** The entries carrying rule number `n`, in list order. */
  function WithRuleNumber(rules: seq<Nacls.NaclEntryModel>, n: int): seq<Nacls.NaclEntryModel> {
    Filter(rules, HasRuleNumber(n))
  }

  /** Stability: for every rule number, the entries carrying it come in the
      same order in both lists. */
  ghost predicate SameOrderPerRuleNumber(s: seq<Nacls.NaclEntryModel>, s0: seq<Nacls.NaclEntryModel>) {
    forall n :: WithRuleNumber(s, n) == WithRuleNumber(s0, n)
  }

  /** `rules.sort((a, b) => a.ruleNumber - b.ruleNumber)`: reorders the
      entries in place into ascending rule-number order. The sort is stable,
      as JavaScript's is: entries with equal rule numbers (the -1 of a
      missing number, or the two default "*" rules of a dual-stack ACL) keep
      the order the API gave them. */
  method SortByRuleNumber(rules: array<Nacls.NaclEntryModel>)
    modifies rules
    ensures SortedByRuleNumber(rules[..])
    ensures multiset(rules[..]) == multiset(old(rules[..]))
    ensures SameOrderPerRuleNumber(rules[..], old(rules[..]))
  {
    if rules.Length == 0 {
      return;
    }
    var i := 1;
    while i < rules.Length
      invariant 1 <= i <= rules.Length
      invariant SortedUpTo(rules[..], i)
      invariant multiset(rules[..]) == multiset(old(rules[..]))
      invariant SameOrderPerRuleNumber(rules[..], old(rules[..]))
    {
      InsertLast(rules, i);
      i := i + 1;
    }
  }

  /** Insertion step: moves `rules[i]` left past every larger rule number. */
  method InsertLast(rules: array<Nacls.NaclEntryModel>, i: int)
    requires 0 < i < rules.Length
    requires SortedUpTo(rules[..], i)
    modifies rules
    ensures SortedUpTo(rules[..], i + 1)
    ensures multiset(rules[..]) == multiset(old(rules[..]))
    ensures SameOrderPerRuleNumber(rules[..], old(rules[..]))
  {
    var j := i;
    InsertStart(rules[..], i);
    while j > 0 && rules[j - 1].ruleNumber > rules[j].ruleNumber
      invariant 0 <= j <= i
      invariant Inserting(rules[..], old(rules[..]), i, j)
    {
      ghost var s := rules[..];
      rules[j - 1], rules[j] := rules[j], rules[j - 1];
      assert rules[..] == s[j - 1 := s[j]][j := s[j - 1]];
      SwapStep(s, old(rules[..]), i, j);
      j := j - 1;
    }
    InsertDone(rules[..], old(rules[..]), i, j);
  }

  predicate SortedUpTo(s: seq<Nacls.NaclEntryModel>, n: int)
    requires n <= |s|
  {
    forall p, q :: 0 <= p < q < n ==> s[p].ruleNumber <= s[q].ruleNumber
  }

  /** Positions up to `i` are in order once position `j` is ignored ... */
  predicate SortedExcept(s: seq<Nacls.NaclEntryModel>, i: int, j: int)
    requires i < |s|
  {
    forall p, q :: 0 <= p < q <= i && p != j && q != j ==> s[p].ruleNumber <= s[q].ruleNumber
  }

  /** ... and the entry at `j` is no larger than any after it up to `i`. */
  predicate BelowRest(s: seq<Nacls.NaclEntryModel>, i: int, j: int)
    requires 0 <= j <= i < |s|
  {
    forall q :: j < q <= i ==> s[j].ruleNumber <= s[q].ruleNumber
  }

  /** The loop state of an insertion step: `s` holds the entries of `s0`,
      in the same order within each rule number, and its first `i + 1` are
      sorted apart from the moving entry at `j`, which is no larger than any
      entry after it. */
  ghost predicate Inserting(s: seq<Nacls.NaclEntryModel>, s0: seq<Nacls.NaclEntryModel>, i: int, j: int) {
    && 0 <= j <= i < |s|
    && SortedExcept(s, i, j) && BelowRest(s, i, j)
    && multiset(s) == multiset(s0)
    && SameOrderPerRuleNumber(s, s0)
  }

  lemma InsertStart(s: seq<Nacls.NaclEntryModel>, i: int)
    requires 0 < i < |s| && SortedUpTo(s, i)
    ensures Inserting(s, s, i, i)
  {
  }

  lemma SwapStep(s: seq<Nacls.NaclEntryModel>, s0: seq<Nacls.NaclEntryModel>, i: int, j: int)
    requires Inserting(s, s0, i, j) && j > 0
    requires s[j - 1].ruleNumber > s[j].ruleNumber
    ensures Inserting(s[j - 1 := s[j]][j := s[j - 1]], s0, i, j - 1)
  {
    SwapPermutes(s, j - 1, j);
    SwapKeepsOrderPerRuleNumber(s, s0, j);
  }

  /** Exchanging two neighbours with different rule numbers keeps the order
      among the entries of every rule number. */
  lemma SwapKeepsOrderPerRuleNumber(s: seq<Nacls.NaclEntryModel>, s0: seq<Nacls.NaclEntryModel>, j: int)
    requires 0 < j < |s| && s[j - 1].ruleNumber != s[j].ruleNumber
    requires SameOrderPerRuleNumber(s, s0)
    ensures SameOrderPerRuleNumber(s[j - 1 := s[j]][j := s[j - 1]], s0)
  {
    forall n ensures WithRuleNumber(s[j - 1 := s[j]][j := s[j - 1]], n) == WithRuleNumber(s0, n) {
      FilterSwapAdjacent(s, HasRuleNumber(n), j);
    }
  }

  /** Exchanging two entries keeps the same entries. */
  lemma SwapPermutes<T>(s: seq<T>, a: int, b: int)
    requires 0 <= a < b < |s|
    ensures multiset(s[a := s[b]][b := s[a]]) == multiset(s)
  {
  }

  lemma InsertDone(s: seq<Nacls.NaclEntryModel>, s0: seq<Nacls.NaclEntryModel>, i: int, j: int)
    requires Inserting(s, s0, i, j)
    requires j == 0 || s[j - 1].ruleNumber <= s[j].ruleNumber
    ensures SortedUpTo(s, i + 1) && multiset(s) == multiset(s0)
    ensures SameOrderPerRuleNumber(s, s0)
  {
  }
}
