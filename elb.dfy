/** src/api-calls/elb.ts: load balancers, which claim every interface whose
    description mentions their name. */
module LoadBalancers {
  import opened Common
  import Enis

  // Raw SDK shape (DescribeLoadBalancers).
  datatype LoadBalancer = LoadBalancer(
    loadBalancerArn: Option<string>,
    loadBalancerName: Option<string>,
    lbType: Option<string>,
    vpcId: Option<string>)

  datatype LoadBalancerModel = LoadBalancerModel(
    arn: string,
    name: string,
    lbType: string,
    vpcId: string,
    enis: seq<string>,
    subnets: seq<string>)

  /** The text searched for in descriptions: the name, or a single space when
      the name is absent (not the "unknown-load-balancer" the record shows). */
  function MatchToken(lb: LoadBalancer): string {
    lb.loadBalancerName.GetOr(" ")
  }

  /** `it.description?.includes(token)`. */
  predicate Describes(eni: Enis.EniModel, token: string) {
    eni.description.Some? && Contains(eni.description.value, token)
  }

  /** The claim rule as a value, shared by the `enis` and `subnets` filters. */
  function Claims(lb: LoadBalancer): Enis.EniModel -> bool {
    (e: Enis.EniModel) => Describes(e, MatchToken(lb))
  }

  function MapLoadBalancer(lb: LoadBalancer, enis: seq<Enis.EniModel>): (r: LoadBalancerModel)
    ensures r.arn == lb.loadBalancerArn.GetOr("unknown-load-balancer")
    ensures r.name == lb.loadBalancerName.GetOr("unknown-load-balancer")
    ensures r.lbType == lb.lbType.GetOr("unknown") && r.vpcId == lb.vpcId.GetOr("?vpc")
    // Every interface whose description contains the token is claimed ...
    ensures forall e :: e in enis && Describes(e, MatchToken(lb)) ==> e.id in r.enis
    // ... and only those; in interface order.
    ensures forall id :: id in r.enis ==>
              exists e :: e in enis && e.id == id && Describes(e, MatchToken(lb))
    ensures Subseq(r.enis, Enis.Ids(enis))
    // One id per accepted interface, so an id shared by two interfaces is listed twice.
    ensures Enis.IdsOfAccepted(r.enis, enis, Claims(lb))
    // `subnets` runs parallel to `enis`.
    ensures |r.subnets| == |r.enis|
  {
    var p := Claims(lb);
    var ids := Enis.ClaimedIds(enis, p);
    var subnets := Enis.ClaimedSubnets(enis, p);
    LoadBalancerModel(
      lb.loadBalancerArn.GetOr("unknown-load-balancer"),
      lb.loadBalancerName.GetOr("unknown-load-balancer"),
      lb.lbType.GetOr("unknown"),
      lb.vpcId.GetOr("?vpc"),
      ids,
      subnets)
  }

  /** `subnets` runs parallel to `enis`: the i-th subnet is the subnet of the
      interface that gave the i-th claimed id. */
  lemma SubnetsParallel(lb: LoadBalancer, enis: seq<Enis.EniModel>)
    ensures |MapLoadBalancer(lb, enis).subnets| == |MapLoadBalancer(lb, enis).enis|
    ensures forall i :: 0 <= i < |MapLoadBalancer(lb, enis).enis| ==>
              exists e :: e in enis && Describes(e, MatchToken(lb)) &&
                e.id == MapLoadBalancer(lb, enis).enis[i] && e.subnetId == MapLoadBalancer(lb, enis).subnets[i]
  {
    var r := MapLoadBalancer(lb, enis);
    assert r.enis == Enis.ClaimedIds(enis, Claims(lb)) && r.subnets == Enis.ClaimedSubnets(enis, Claims(lb));
    Enis.ClaimsParallel(enis, Claims(lb));
  }

  /** `getAllLoadBalancers` after paging: one model per load balancer, in order. */
  function GetAllLoadBalancers(response: Option<seq<LoadBalancer>>, enis: seq<Enis.EniModel>): (r: seq<LoadBalancerModel>)
    ensures response.None? ==> r == []
    ensures response.Some? ==> |r| == |response.value|
    ensures response.Some? ==> forall i :: 0 <= i < |r| ==> r[i] == MapLoadBalancer(response.value[i], enis)
  {
    MapOpt(response, (lb: LoadBalancer) => MapLoadBalancer(lb, enis))
  }

  lemma {:induction false} FilterDescribed(enis: seq<Enis.EniModel>, token: string)
    ensures Filter(Filter(enis, (e: Enis.EniModel) => e.description.Some?), (e: Enis.EniModel) => Describes(e, token))
         == Filter(enis, (e: Enis.EniModel) => Describes(e, token))
  {
    if enis != [] {
      FilterDescribed(enis[1..], token);
      var d := (e: Enis.EniModel) => e.description.Some?;
      if enis[0].description.Some? {
        assert Filter(enis, d) == [enis[0]] + Filter(enis[1..], d);
        assert ([enis[0]] + Filter(enis[1..], d))[1..] == Filter(enis[1..], d);
      }
    }
  }

  /** Interfaces without a description are never claimed: dropping them from
      the input leaves every load balancer's claims unchanged. */
  lemma UndescribedNeverClaimed(lb: LoadBalancer, enis: seq<Enis.EniModel>)
    ensures MapLoadBalancer(lb, Filter(enis, (e: Enis.EniModel) => e.description.Some?)) == MapLoadBalancer(lb, enis)
  {
    FilterDescribed(enis, MatchToken(lb));
  }

  function Named(name: Option<string>): LoadBalancer {
    LoadBalancer(None, name, None, None)
  }

  const WebLbEni := Enis.EniModel("eni-9", Some("ELB web-lb-internal"), "subnet-1", [], [], None, None, None)

  /** Substring matching is kept as is: "web-lb" claims the interface
      described "ELB web-lb-internal", and so does "lb". */
  lemma SubstringFragility()
    ensures MapLoadBalancer(Named(Some("web-lb")), [WebLbEni]).enis == ["eni-9"]
    ensures MapLoadBalancer(Named(Some("lb")), [WebLbEni]).enis == ["eni-9"]
  {
    var d := WebLbEni.description.value;
    assert d == "ELB web-lb-internal";
    assert d[4..10] == "web-lb";
    ContainsAt(d, "web-lb", 4);
    assert d[8..10] == "lb";
    ContainsAt(d, "lb", 8);
    ClaimsSingle(Named(Some("web-lb")), WebLbEni);
    ClaimsSingle(Named(Some("lb")), WebLbEni);
  }

  /** An interface without an id, as the mapper defaults it. */
  function IdlessEni(description: Option<string>): Enis.EniModel {
    Enis.EniModel("unknown-eni", description, "subnet-1", [], [], None, None, None)
  }

  /** Interfaces without an id all read "unknown-eni", and the claim list
      still counts them one by one: a described and an undescribed one give
      the id once, two described ones give it twice. */
  lemma IdlessEnisCountedOneByOne()
    ensures MapLoadBalancer(Named(Some("web")), [IdlessEni(Some("web")), IdlessEni(None)]).enis == ["unknown-eni"]
    ensures MapLoadBalancer(Named(Some("web")), [IdlessEni(Some("web")), IdlessEni(Some("web"))]).enis == ["unknown-eni", "unknown-eni"]
  {
    var a, b := IdlessEni(Some("web")), IdlessEni(None);
    ContainsAt("web", "web", 0);
    var p := Claims(Named(Some("web")));
    assert p(a) && !p(b);
    FilterCons([a, b], p);
    FilterCons([b], p);
    assert [a, b][1..] == [b] && [b][1..] == [];
    FilterCons([a, a], p);
    FilterCons([a], p);
    assert [a, a][1..] == [a] && [a][1..] == [];
  }

  /** Over one described interface, the claim is that interface's id. */
  lemma ClaimsSingle(lb: LoadBalancer, e: Enis.EniModel)
    requires Describes(e, MatchToken(lb))
    ensures MapLoadBalancer(lb, [e]).enis == [e.id]
  {
    Enis.OneCandidate(MapLoadBalancer(lb, [e]).enis, e);
  }

  /** With no name, the record says "unknown-load-balancer" but the rule
      searches for " ", so any description with a space is claimed. */
  lemma NamelessClaimsSpaces(enis: seq<Enis.EniModel>, e: Enis.EniModel, i: nat)
    requires e in enis && e.description.Some?
    requires i < |e.description.value| && e.description.value[i] == ' '
    ensures MapLoadBalancer(Named(None), enis).name == "unknown-load-balancer"
    ensures e.id in MapLoadBalancer(Named(None), enis).enis
  {
    assert e.description.value[i..i + 1] == " ";
    ContainsAt(e.description.value, " ", i);
  }
}
