/** src/api-calls/ec2.ts: virtual machine instances, with the subnets and
    interfaces of their network interfaces as two parallel lists. */
module Ec2 {
  import opened Common

  // Raw SDK shapes (DescribeInstances).
  datatype InstanceNetworkInterface = InstanceNetworkInterface(subnetId: Option<string>, networkInterfaceId: Option<string>)
  datatype InstanceState = InstanceState(name: Option<string>)
  datatype Instance = Instance(
    instanceId: Option<string>,
    tags: Option<seq<Tag>>,
    instanceType: Option<string>,
    state: Option<InstanceState>,
    vpcId: Option<string>,
    networkInterfaces: Option<seq<InstanceNetworkInterface>>)

  datatype Ec2Model = Ec2Model(
    id: string,
    name: Option<string>,
    logicalId: Option<string>,
    instanceType: string,
    state: string,
    vpcId: string,
    subnets: seq<string>,
    enis: seq<string>)

  function MapInstance(inst: Instance): (r: Ec2Model)
    ensures r.id == inst.instanceId.GetOr("unknown-ec2-instance")
    ensures r.name == TagValue(inst.tags, "Name") && r.logicalId == TagValue(inst.tags, "aws:cloudformation:logical-id")
    ensures r.instanceType == inst.instanceType.GetOr("unknown") && r.vpcId == inst.vpcId.GetOr("?vpc")
    ensures inst.state.None? ==> r.state == "unknown"
    ensures inst.state.Some? ==> r.state == inst.state.value.name.GetOr("unknown")
    // Both lists are projections of the same interface list.
    ensures inst.networkInterfaces.None? ==> r.subnets == [] && r.enis == []
    ensures |r.subnets| == |r.enis|
    ensures inst.networkInterfaces.Some? ==>
              |r.enis| == |inst.networkInterfaces.value| &&
              forall i :: 0 <= i < |r.enis| ==>
                r.subnets[i] == inst.networkInterfaces.value[i].subnetId.GetOr("?subnet") &&
                r.enis[i] == inst.networkInterfaces.value[i].networkInterfaceId.GetOr("?eni?")
  {
    Ec2Model(
      inst.instanceId.GetOr("unknown-ec2-instance"),
      TagValue(inst.tags, "Name"),
      TagValue(inst.tags, "aws:cloudformation:logical-id"),
      inst.instanceType.GetOr("unknown"),
      if inst.state.Some? then inst.state.value.name.GetOr("unknown") else "unknown",
      inst.vpcId.GetOr("?vpc"),
      MapOpt(inst.networkInterfaces, (n: InstanceNetworkInterface) => n.subnetId.GetOr("?subnet")),
      MapOpt(inst.networkInterfaces, (n: InstanceNetworkInterface) => n.networkInterfaceId.GetOr("?eni?")))
  }

  /** `getAllEc2Instances` after paging: one model per instance, in order. */
  function GetAllEc2Instances(instances: seq<Instance>): (r: seq<Ec2Model>)
    ensures |r| == |instances|
    ensures forall i :: 0 <= i < |r| ==> r[i] == MapInstance(instances[i])
  {
    Map(instances, MapInstance)
  }

  /** The i-th subnet belongs to the interface that gave the i-th id: an
      interface present in the input is found at the same index in both lists. */
  lemma SubnetOfEachEni(inst: Instance, n: InstanceNetworkInterface)
    requires inst.networkInterfaces.Some? && n in inst.networkInterfaces.value
    ensures exists i :: 0 <= i < |MapInstance(inst).enis| &&
              MapInstance(inst).enis[i] == n.networkInterfaceId.GetOr("?eni?") &&
              MapInstance(inst).subnets[i] == n.subnetId.GetOr("?subnet")
  {
    var i :| 0 <= i < |inst.networkInterfaces.value| && inst.networkInterfaces.value[i] == n;
    assert MapInstance(inst).enis[i] == n.networkInterfaceId.GetOr("?eni?");
  }
}
