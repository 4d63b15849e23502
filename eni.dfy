/** src/api-calls/eni.ts: network interfaces (ENIs), the join entity every
    ownership rule reads, and the projections the correlators share. */
module Enis {
  import opened Common

  // Raw SDK shapes (DescribeNetworkInterfaces).
  datatype IpAssociation = IpAssociation(publicIp: Option<string>, ipOwnerId: Option<string>)
  datatype PrivateIpAddress = PrivateIpAddress(privateIpAddress: Option<string>, association: Option<IpAssociation>)
  datatype GroupIdentifier = GroupIdentifier(groupId: Option<string>)
  datatype NetworkInterface = NetworkInterface(
    networkInterfaceId: Option<string>,
    description: Option<string>,
    subnetId: Option<string>,
    privateIpAddresses: Option<seq<PrivateIpAddress>>,
    groups: Option<seq<GroupIdentifier>>)

  datatype EniIp = EniIp(privateIp: string, publicIp: Option<string>, ownedBy: Option<string>)

  /** The normalised ENI. `interfaceOwner`, `interfaceType` and `vpcLinkId`
      are read by the RDS and API-gateway rules; the mapper never fills them. */
  datatype EniModel = EniModel(
    id: string,
    description: Option<string>,
    subnetId: string,
    ips: seq<EniIp>,
    secGroups: seq<string>,
    interfaceOwner: Option<string>,
    interfaceType: Option<string>,
    vpcLinkId: Option<string>)

  function MapIp(ip: PrivateIpAddress): (r: EniIp)
    ensures r.privateIp == (if ip.privateIpAddress.Some? then ip.privateIpAddress.value else "?ipv4")
    ensures ip.association.None? ==> r.publicIp.None? && r.ownedBy.None?
    ensures ip.association.Some? ==> r.publicIp == ip.association.value.publicIp && r.ownedBy == ip.association.value.ipOwnerId
  {
    EniIp(
      ip.privateIpAddress.GetOr("?ipv4"),
      if ip.association.Some? then ip.association.value.publicIp else None,
      if ip.association.Some? then ip.association.value.ipOwnerId else None)
  }

  /** One raw interface to its model: every field that the correlators
      compare is a plain string except the description. */
  function MapEni(raw: NetworkInterface): (r: EniModel)
    ensures raw.networkInterfaceId.Some? ==> r.id == raw.networkInterfaceId.value
    ensures raw.networkInterfaceId.None? ==> r.id == "unknown-eni"
    ensures r.description == raw.description
    ensures raw.subnetId.Some? ==> r.subnetId == raw.subnetId.value
    ensures raw.subnetId.None? ==> r.subnetId == "?subnet"
    ensures raw.privateIpAddresses.None? ==> r.ips == []
    ensures raw.privateIpAddresses.Some? ==>
              |r.ips| == |raw.privateIpAddresses.value| &&
              forall i :: 0 <= i < |r.ips| ==> r.ips[i] == MapIp(raw.privateIpAddresses.value[i])
    ensures raw.groups.None? ==> r.secGroups == []
    ensures raw.groups.Some? ==>
              |r.secGroups| == |raw.groups.value| &&
              forall i :: 0 <= i < |r.secGroups| ==>
                r.secGroups[i] == (if raw.groups.value[i].groupId.Some? then raw.groups.value[i].groupId.value else "?secgroup")
    ensures r.interfaceOwner.None? && r.interfaceType.None? && r.vpcLinkId.None?
  {
    EniModel(
      raw.networkInterfaceId.GetOr("unknown-eni"),
      raw.description,
      raw.subnetId.GetOr("?subnet"),
      MapOpt(raw.privateIpAddresses, MapIp),
      MapOpt(raw.groups, (g: GroupIdentifier) => g.groupId.GetOr("?secgroup")),
      None, None, None)
  }

  /** `getAllEnis` after paging: one model per raw interface, in order. */
  function GetAllEnis(response: Option<seq<NetworkInterface>>): (r: seq<EniModel>)
    ensures response.None? ==> r == []
    ensures response.Some? ==> |r| == |response.value|
    ensures response.Some? ==> forall i :: 0 <= i < |r| ==> r[i] == MapEni(response.value[i])
  {
    MapOpt(response, MapEni)
  }

  /** `enis.map(it => it.id)`. */
  function Ids(enis: seq<EniModel>): (r: seq<string>)
    ensures |r| == |enis|
    ensures forall i :: 0 <= i < |enis| ==> r[i] == enis[i].id
  {
    Map(enis, (e: EniModel) => e.id)
  }

  /** Over a single interface, a claim list is either empty or that
      interface's id. */
  lemma OneCandidate(r: seq<string>, e: EniModel)
    requires Subseq(r, Ids([e]))
    ensures r == [] || r == [e.id]
  {
    var ids := Ids([e]);
    assert ids == [e.id];
    if r != [] {
      assert ids[1..] == [];
      assert !Subseq(r, ids[1..]);
      assert r[0] == e.id && Subseq(r[1..], ids[1..]);
      assert r[1..] == [];
      assert r == [r[0]] + r[1..];
    }
  }

  /** `enis.map(it => it.subnetId)`. */
  function SubnetIds(enis: seq<EniModel>): (r: seq<string>)
    ensures |r| == |enis|
    ensures forall i :: 0 <= i < |enis| ==> r[i] == enis[i].subnetId
  {
    Map(enis, (e: EniModel) => e.subnetId)
  }

  /** `ids` lists the ids of exactly the interfaces `p` accepts: one per
      accepted interface, in interface order. */
  predicate IdsOfAccepted(ids: seq<string>, enis: seq<EniModel>, p: EniModel -> bool) {
    |ids| == |Filter(enis, p)| && forall i :: 0 <= i < |ids| ==> ids[i] == Filter(enis, p)[i].id
  }

  /** `enis.filter(p).map(it => it.id)`: the ids an owner claims under rule
      `p`, one per matching interface, in interface order. */
  function ClaimedIds(enis: seq<EniModel>, p: EniModel -> bool): (r: seq<string>)
    ensures |r| <= |enis|
    ensures Subseq(r, Ids(enis))
    ensures forall e :: e in enis && p(e) ==> e.id in r
    ensures forall id :: id in r ==> exists e :: e in enis && p(e) && e.id == id
    ensures (forall e :: e in enis ==> !p(e)) ==> r == []
    // One id per matching interface, in the same positions.
    ensures |r| == |Filter(enis, p)| && forall i :: 0 <= i < |r| ==> r[i] == Filter(enis, p)[i].id
  {
    var sel := Filter(enis, p);
    MapSubseq(sel, enis, (e: EniModel) => e.id);
    IdsMembership(sel);
    Ids(sel)
  }

  /** The ids of a list are the ids of its members, and nothing else. */
  lemma IdsMembership(enis: seq<EniModel>)
    ensures forall e :: e in enis ==> e.id in Ids(enis)
    ensures forall id :: id in Ids(enis) ==> exists e :: e in enis && e.id == id
  {
    var r := Ids(enis);
    forall e | e in enis ensures e.id in r {
      var i :| 0 <= i < |enis| && enis[i] == e;
      assert r[i] == e.id;
    }
    forall id | id in r ensures exists e :: e in enis && e.id == id {
      var i :| 0 <= i < |r| && r[i] == id;
      assert enis[i] in enis;
    }
  }

  /** `enis.filter(p).map(it => it.subnetId)`. */
  function ClaimedSubnets(enis: seq<EniModel>, p: EniModel -> bool): seq<string> {
    SubnetIds(Filter(enis, p))
  }

  /** The id list and the subnet list built by the same filter are parallel:
      the i-th subnet is the subnet of the interface that gave the i-th id. */
  lemma ClaimsParallel(enis: seq<EniModel>, p: EniModel -> bool)
    ensures |ClaimedIds(enis, p)| == |ClaimedSubnets(enis, p)|
    ensures forall i :: 0 <= i < |ClaimedIds(enis, p)| ==>
              exists e :: e in enis && p(e) && e.id == ClaimedIds(enis, p)[i] && e.subnetId == ClaimedSubnets(enis, p)[i]
  {
    var sel := Filter(enis, p);
    forall i | 0 <= i < |sel|
      ensures sel[i] in enis && p(sel[i])
    {
      assert sel[i] in sel;
    }
  }
}
