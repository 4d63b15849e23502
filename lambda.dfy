/** src/api-calls/lambda.ts: serverless functions attached to a VPC, which
    claim interfaces by a name token in the description plus subnet membership. */
module Lambdas {
  import opened Common
  import Enis

  // Raw SDK shapes (ListFunctions).
  datatype VpcConfig = VpcConfig(subnetIds: Option<seq<string>>, vpcId: Option<string>)
  datatype FunctionConfiguration = FunctionConfiguration(
    functionName: Option<string>,
    runtime: Option<string>,
    memorySize: Option<int>,
    vpcConfig: Option<VpcConfig>)

  datatype LambdaModel = LambdaModel(
    id: string,
    runtime: Option<string>,
    memorySize: Option<int>,
    vpcId: string,
    subnetIds: seq<string>,
    enis: seq<string>)

  /** `lambda.VpcConfig?.SubnetIds ?? []`. */
  function ConfiguredSubnets(fn: FunctionConfiguration): seq<string> {
    if fn.vpcConfig.Some? then fn.vpcConfig.value.subnetIds.GetOr([]) else []
  }

  /** "ENI-" + name + "-", with "xxxxx" standing in for a missing name. */
  function MatchToken(fn: FunctionConfiguration): string {
    "ENI-" + fn.functionName.GetOr("xxxxx") + "-"
  }

  /** The ownership rule of lambda.ts:31-32. */
  predicate Owns(eni: Enis.EniModel, fn: FunctionConfiguration) {
    eni.description.Some? && Contains(eni.description.value, MatchToken(fn)) && eni.subnetId in ConfiguredSubnets(fn)
  }

  /** The claim rule of one function as a value. */
  function Claims(fn: FunctionConfiguration): Enis.EniModel -> bool {
    (e: Enis.EniModel) => Owns(e, fn)
  }

  function MapLambda(fn: FunctionConfiguration, enis: seq<Enis.EniModel>): (r: LambdaModel)
    ensures r.id == fn.functionName.GetOr("unknown-lambda")
    ensures r.runtime == fn.runtime && r.memorySize == fn.memorySize
    ensures r.vpcId == (if fn.vpcConfig.Some? then fn.vpcConfig.value.vpcId.GetOr("?vpc") else "?vpc")
    ensures r.subnetIds == ConfiguredSubnets(fn)
    ensures forall e :: e in enis && Owns(e, fn) ==> e.id in r.enis
    ensures forall id :: id in r.enis ==>
              exists e :: e in enis && e.id == id && e.subnetId in r.subnetIds &&
                e.description.Some? && Contains(e.description.value, MatchToken(fn))
    ensures Subseq(r.enis, Enis.Ids(enis))
    // One id per owned interface, in interface order.
    ensures Enis.IdsOfAccepted(r.enis, enis, Claims(fn))
    ensures r.subnetIds == [] ==> r.enis == []
  {
    LambdaModel(
      fn.functionName.GetOr("unknown-lambda"),
      fn.runtime,
      fn.memorySize,
      if fn.vpcConfig.Some? then fn.vpcConfig.value.vpcId.GetOr("?vpc") else "?vpc",
      ConfiguredSubnets(fn),
      Enis.ClaimedIds(enis, Claims(fn)))
  }

  predicate InVpc(fn: FunctionConfiguration) {
    fn.vpcConfig.Some?
  }

  /** `getAllLambdas` after paging: only functions with a VPC configuration
      produce a record, one each, in order. */
  function GetAllLambdas(functions: seq<FunctionConfiguration>, enis: seq<Enis.EniModel>): (r: seq<LambdaModel>)
    ensures |r| <= |functions|
    ensures forall fn :: fn in functions && InVpc(fn) ==> MapLambda(fn, enis) in r
    ensures forall m :: m in r ==> exists fn :: fn in functions && InVpc(fn) && m == MapLambda(fn, enis)
    ensures (forall fn :: fn in functions ==> !InVpc(fn)) ==> r == []
  {
    var model := (fn: FunctionConfiguration) => MapLambda(fn, enis);
    FilterMapMembership(functions, InVpc, model);
    Map(Filter(functions, InVpc), model)
  }

  /** The records come one per VPC-configured function, in function order. */
  lemma LambdasInFunctionOrder(functions: seq<FunctionConfiguration>, enis: seq<Enis.EniModel>)
    ensures |GetAllLambdas(functions, enis)| == |Filter(functions, InVpc)|
    ensures forall i :: 0 <= i < |Filter(functions, InVpc)| ==>
              GetAllLambdas(functions, enis)[i] == MapLambda(Filter(functions, InVpc)[i], enis)
  {
    var sel := Filter(functions, InVpc);
    var r := GetAllLambdas(functions, enis);
    assert r == Map(sel, (fn: FunctionConfiguration) => MapLambda(fn, enis));
  }
}
