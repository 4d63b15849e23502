/** src/api-calls/nacl.ts: network ACLs, their subnet associations, and their
    entries split into ingress and egress rules. */
module Nacls {
  import opened Common

  // Raw SDK shapes (DescribeNetworkAcls).
  datatype PortRange = PortRange(from: Option<int>, to: Option<int>)
  datatype NetworkAclEntry = NetworkAclEntry(
    ruleNumber: Option<int>,
    egress: Option<bool>,
    cidrBlock: Option<string>,
    ipv6CidrBlock: Option<string>,
    portRange: Option<PortRange>,
    ruleAction: Option<string>)
  datatype NetworkAclAssociation = NetworkAclAssociation(subnetId: Option<string>)
  datatype NetworkAcl = NetworkAcl(
    networkAclId: Option<string>,
    vpcId: Option<string>,
    tags: Option<seq<Tag>>,
    associations: Option<seq<NetworkAclAssociation>>,
    isDefault: Option<bool>,
    entries: Option<seq<NetworkAclEntry>>)

  /** One rule. `addresses` is the `from` text of an ingress rule and the `to`
      text of an egress rule; both are built the same way. */
  datatype NaclEntryModel = NaclEntryModel(ruleNumber: int, addresses: string, destPorts: Option<string>, action: string)
  datatype NaclModel = NaclModel(
    id: string,
    vpcId: string,
    logicalId: Option<string>,
    associatedSubnets: seq<string>,
    isDefault: bool,
    ingress: seq<NaclEntryModel>,
    egress: seq<NaclEntryModel>)

  /** `[CidrBlock ?? '', Ipv6CidrBlock ?? ''].filter(it => it != '').join(',')`. */
  function Addresses(e: NetworkAclEntry): (r: string)
    ensures e.cidrBlock.GetOr("") != "" && e.ipv6CidrBlock.GetOr("") != "" ==> r == e.cidrBlock.value + "," + e.ipv6CidrBlock.value
    ensures e.cidrBlock.GetOr("") != "" && e.ipv6CidrBlock.GetOr("") == "" ==> r == e.cidrBlock.value
    ensures e.cidrBlock.GetOr("") == "" && e.ipv6CidrBlock.GetOr("") != "" ==> r == e.ipv6CidrBlock.value
    ensures e.cidrBlock.GetOr("") == "" && e.ipv6CidrBlock.GetOr("") == "" ==> r == ""
  {
    var a, b := e.cidrBlock.GetOr(""), e.ipv6CidrBlock.GetOr("");
    var parts := Filter([a, b], (s: string) => s != "");
    assert parts == (if a != "" then [a] else []) + (if b != "" then [b] else []);
    assert a != "" && b != "" ==> Join(parts, ",") == a + "," + Join([b], ",") by {
      if a != "" && b != "" {
        assert parts == [a, b] && parts[1..] == [b];
      }
    }
    Join(parts, ",")
  }

  function PortFrom(e: NetworkAclEntry): Option<int> {
    if e.portRange.Some? then e.portRange.value.from else None
  }

  function PortTo(e: NetworkAclEntry): Option<int> {
    if e.portRange.Some? then e.portRange.value.to else None
  }

  /** nacl.ts:39-42: one port as text when both ends agree (absent when both
      are absent), otherwise "From-To" with an absent end written "undefined". */
  function DestPorts(e: NetworkAclEntry): (r: Option<string>)
    ensures r.None? <==> PortFrom(e).None? && PortTo(e).None?
    ensures PortFrom(e).Some? && PortFrom(e) == PortTo(e) ==> r == Some(NumText(PortFrom(e).value))
    ensures PortFrom(e) != PortTo(e) ==> r == Some(OptNumText(PortFrom(e)) + "-" + OptNumText(PortTo(e)))
  {
    if PortTo(e) == PortFrom(e) then
      (if PortFrom(e).Some? then Some(NumText(PortFrom(e).value)) else None)
    else Some(OptNumText(PortFrom(e)) + "-" + OptNumText(PortTo(e)))
  }

  function MapEntry(e: NetworkAclEntry): (r: NaclEntryModel)
    ensures r.ruleNumber == e.ruleNumber.GetOr(-1) && r.action == e.ruleAction.GetOr("?action")
    ensures r.addresses == Addresses(e) && r.destPorts == DestPorts(e)
  {
    NaclEntryModel(e.ruleNumber.GetOr(-1), Addresses(e), DestPorts(e), e.ruleAction.GetOr("?action"))
  }

  predicate IsEgress(e: NetworkAclEntry) {
    e.egress == Some(true)
  }

  predicate IsIngress(e: NetworkAclEntry) {
    !IsEgress(e)
  }

  function MapNacl(nacl: NetworkAcl): (r: NaclModel)
    ensures r.id == nacl.networkAclId.GetOr("unknown-nacl") && r.vpcId == nacl.vpcId.GetOr("unknown-vpc")
    ensures r.logicalId == TagValue(nacl.tags, "aws:cloudformation:logical-id")
    ensures r.isDefault <==> nacl.isDefault == Some(true)
    ensures nacl.associations.None? ==> r.associatedSubnets == []
    ensures nacl.associations.Some? ==>
              |r.associatedSubnets| == |nacl.associations.value| &&
              forall i :: 0 <= i < |r.associatedSubnets| ==> r.associatedSubnets[i] == nacl.associations.value[i].subnetId.GetOr("?subnet")
    ensures nacl.entries.None? ==> r.ingress == [] && r.egress == []
    ensures nacl.entries.Some? ==> r.ingress == Map(Filter(nacl.entries.value, IsIngress), MapEntry)
    ensures nacl.entries.Some? ==> r.egress == Map(Filter(nacl.entries.value, IsEgress), MapEntry)
  {
    var entries := nacl.entries.GetOr([]);
    NaclModel(
      nacl.networkAclId.GetOr("unknown-nacl"),
      nacl.vpcId.GetOr("unknown-vpc"),
      TagValue(nacl.tags, "aws:cloudformation:logical-id"),
      MapOpt(nacl.associations, (a: NetworkAclAssociation) => a.subnetId.GetOr("?subnet")),
      nacl.isDefault.GetOr(false),
      Map(Filter(entries, IsIngress), MapEntry),
      Map(Filter(entries, IsEgress), MapEntry))
  }

  /** `getAllNacls`: one model per ACL, in order. */
  function GetAllNacls(response: Option<seq<NetworkAcl>>): (r: seq<NaclModel>)
    ensures response.None? ==> r == []
    ensures response.Some? ==> |r| == |response.value| && forall i :: 0 <= i < |r| ==> r[i] == MapNacl(response.value[i])
  {
    MapOpt(response, MapNacl)
  }

  /** Every entry lands in exactly one of the two lists; none is lost or doubled. */
  lemma EntriesPartitioned(nacl: NetworkAcl)
    requires nacl.entries.Some?
    ensures |MapNacl(nacl).ingress| + |MapNacl(nacl).egress| == |nacl.entries.value|
    ensures forall e :: e in nacl.entries.value ==>
              (e in Filter(nacl.entries.value, IsIngress)) != (e in Filter(nacl.entries.value, IsEgress))
  {
    var entries := nacl.entries.value;
    FilterSplits(entries, IsIngress, IsEgress);
    assert |multiset(Filter(entries, IsIngress))| + |multiset(Filter(entries, IsEgress))| == |multiset(entries)|;
  }

  /** An entry with no port range reads "any ports" later: its text is absent. */
  lemma NoRangeNoPorts(e: NetworkAclEntry)
    requires e.portRange.None?
    ensures MapEntry(e).destPorts.None?
  {
  }
}
