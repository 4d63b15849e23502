/** src/api-calls/rds.ts: managed database instances and the four-part rule
    by which a database claims network interfaces. */
module Rds {
  import opened Common
  import Helper
  import Enis

  // Raw SDK shapes (DescribeDBInstances).
  datatype DbSubnet = DbSubnet(subnetIdentifier: Option<string>)
  datatype DbSubnetGroup = DbSubnetGroup(vpcId: Option<string>, subnets: Option<seq<DbSubnet>>)
  datatype VpcSecurityGroupMembership = VpcSecurityGroupMembership(vpcSecurityGroupId: Option<string>, status: Option<string>)
  datatype DbInstance = DbInstance(
    dbInstanceIdentifier: Option<string>,
    dbInstanceArn: Option<string>,
    tagList: Option<seq<Tag>>,
    dbSubnetGroup: Option<DbSubnetGroup>,
    vpcSecurityGroups: Option<seq<VpcSecurityGroupMembership>>)

  datatype RdsModel = RdsModel(
    id: string,
    arn: string,
    logicalId: Option<string>,
    vpcId: string,
    subnets: seq<string>,
    secGroups: seq<string>,
    enis: seq<string>)

  const RdsDescription := "RDSNetworkInterface"
  const RdsOwner := "amazon-rds"

  /** `db.DBSubnetGroup?.Subnets?.map(it => it.SubnetIdentifier ?? '?subnet') ?? []`. */
  function DbSubnets(db: DbInstance): (r: seq<string>)
    ensures db.dbSubnetGroup.None? ==> r == []
    ensures db.dbSubnetGroup.Some? && db.dbSubnetGroup.value.subnets.None? ==> r == []
    ensures db.dbSubnetGroup.Some? && db.dbSubnetGroup.value.subnets.Some? ==>
              |r| == |db.dbSubnetGroup.value.subnets.value| &&
              forall i :: 0 <= i < |r| ==> r[i] == db.dbSubnetGroup.value.subnets.value[i].subnetIdentifier.GetOr("?subnet")
  {
    if db.dbSubnetGroup.None? then []
    else MapOpt(db.dbSubnetGroup.value.subnets, (s: DbSubnet) => s.subnetIdentifier.GetOr("?subnet"))
  }

  predicate IsActive(m: VpcSecurityGroupMembership) {
    m.status == Some("active")
  }

  /** A membership's group id, "?vpc" when missing. */
  function GroupId(m: VpcSecurityGroupMembership): string {
    m.vpcSecurityGroupId.GetOr("?vpc")
  }

  /** The active security-group memberships' ids, in order, "?vpc" for a missing id. */
  function DbSecGroups(db: DbInstance): (r: seq<string>)
    ensures db.vpcSecurityGroups.None? ==> r == []
    // Exactly one id per active membership, in membership order.
    ensures db.vpcSecurityGroups.Some? ==> r == Map(Filter(db.vpcSecurityGroups.value, IsActive), GroupId)
    ensures db.vpcSecurityGroups.Some? ==>
              (forall m :: m in db.vpcSecurityGroups.value && IsActive(m) ==> m.vpcSecurityGroupId.GetOr("?vpc") in r) &&
              (forall g :: g in r ==> exists m :: m in db.vpcSecurityGroups.value && IsActive(m) && m.vpcSecurityGroupId.GetOr("?vpc") == g) &&
              |r| <= |db.vpcSecurityGroups.value|
  {
    if db.vpcSecurityGroups.None? then []
    else
      var active := Filter(db.vpcSecurityGroups.value, IsActive);
      MapMembership(active, GroupId);
      Map(active, GroupId)
  }

  /** The ownership rule of rds.ts:35-38: fixed description, fixed owner,
      interface subnet among the database's subnets, and a shared security group. */
  predicate Owns(eni: Enis.EniModel, subnets: seq<string>, secGroups: seq<string>) {
    && eni.description == Some(RdsDescription)
    && eni.interfaceOwner == Some(RdsOwner)
    && eni.subnetId in subnets
    && |Helper.IntersectionOf(eni.secGroups, secGroups)| > 0
  }

  /** The claim rule for given subnets and groups as a value. */
  function Claims(subnets: seq<string>, secGroups: seq<string>): Enis.EniModel -> bool {
    (e: Enis.EniModel) => Owns(e, subnets, secGroups)
  }

  /** One database instance to its model, with the interfaces it claims. */
  function MapDbInstance(db: DbInstance, enis: seq<Enis.EniModel>): (r: RdsModel)
    ensures r.id == db.dbInstanceIdentifier.GetOr("unknown-rds-instance")
    ensures r.arn == db.dbInstanceArn.GetOr("unknown-rds-instance")
    ensures r.logicalId == TagValue(db.tagList, "aws:cloudformation:logical-id")
    ensures db.dbSubnetGroup.None? ==> r.vpcId == "?vpc" && r.subnets == [] && r.enis == []
    ensures db.dbSubnetGroup.Some? ==> r.vpcId == db.dbSubnetGroup.value.vpcId.GetOr("?vpc")
    ensures r.subnets == DbSubnets(db) && r.secGroups == DbSecGroups(db)
    // An interface is claimed iff all four conjuncts hold.
    ensures forall e :: e in enis && Owns(e, r.subnets, r.secGroups) ==> e.id in r.enis
    ensures forall id :: id in r.enis ==>
              exists e :: e in enis && e.id == id &&
                e.description == Some(RdsDescription) && e.interfaceOwner == Some(RdsOwner) &&
                e.subnetId in r.subnets && (exists g :: g in e.secGroups && g in r.secGroups)
    // Claimed ids come out in interface order, exactly one per claimed interface.
    ensures Subseq(r.enis, Enis.Ids(enis))
    ensures Enis.IdsOfAccepted(r.enis, enis, Claims(r.subnets, r.secGroups))
    ensures enis == [] ==> r.enis == []
  {
    var subnets := DbSubnets(db);
    var secGroups := DbSecGroups(db);
    RdsModel(
      db.dbInstanceIdentifier.GetOr("unknown-rds-instance"),
      db.dbInstanceArn.GetOr("unknown-rds-instance"),
      TagValue(db.tagList, "aws:cloudformation:logical-id"),
      if db.dbSubnetGroup.Some? then db.dbSubnetGroup.value.vpcId.GetOr("?vpc") else "?vpc",
      subnets,
      secGroups,
      Enis.ClaimedIds(enis, Claims(subnets, secGroups)))
  }

  /** `getAllRdsInstances` after paging: one model per instance, in order. */
  function GetAllRdsInstances(response: Option<seq<DbInstance>>, enis: seq<Enis.EniModel>): (r: seq<RdsModel>)
    ensures response.None? ==> r == []
    ensures response.Some? ==> |r| == |response.value|
    ensures response.Some? ==> forall i :: 0 <= i < |r| ==> r[i] == MapDbInstance(response.value[i], enis)
    ensures enis == [] ==> forall i :: 0 <= i < |r| ==> r[i].enis == []
  {
    MapOpt(response, (db: DbInstance) => MapDbInstance(db, enis))
  }

  /** No disambiguation: two databases with the same subnets and security
      groups claim exactly the same interfaces. */
  lemma SameGroupsSameClaims(db1: DbInstance, db2: DbInstance, enis: seq<Enis.EniModel>)
    requires DbSubnets(db1) == DbSubnets(db2) && DbSecGroups(db1) == DbSecGroups(db2)
    ensures MapDbInstance(db1, enis).enis == MapDbInstance(db2, enis).enis
  {
  }

  /** Interfaces straight from the ENI mapper never carry an owner tag, so
      under this rule a database claims none of them. */
  lemma MappedEnisNeverClaimed(db: DbInstance, raws: seq<Enis.NetworkInterface>)
    ensures MapDbInstance(db, Enis.GetAllEnis(Some(raws))).enis == []
  {
    var enis := Enis.GetAllEnis(Some(raws));
    forall e | e in enis ensures e.interfaceOwner.None? {
      var i :| 0 <= i < |enis| && enis[i] == e;
    }
  }

  function ExampleEni(owner: string): Enis.EniModel {
    Enis.EniModel("eni-1", Some("RDSNetworkInterface"), "subnet-1", [], ["sg-1", "sg-2"], Some(owner), None, None)
  }

  function ExampleDb(id: string): DbInstance {
    DbInstance(Some(id), None, None,
      Some(DbSubnetGroup(Some("vpc-1"), Some([DbSubnet(Some("subnet-1"))]))),
      Some([VpcSecurityGroupMembership(Some("sg-1"), Some("active"))]))
  }

  /** The example database's subnet and active group lists. */
  lemma ExampleDbLists(id: string)
    ensures DbSubnets(ExampleDb(id)) == ["subnet-1"] && DbSecGroups(ExampleDb(id)) == ["sg-1"]
    ensures |Helper.IntersectionOf(["sg-1", "sg-2"], ["sg-1"])| > 0
  {
    var groups := ExampleDb(id).vpcSecurityGroups.value;
    assert Filter(groups, IsActive) == groups;
    assert "sg-1" in ["sg-1", "sg-2"];
  }

  /** The example interface is claimed by the example database exactly when
      its owner is "amazon-rds". */
  lemma ExampleClaims(id: string, owner: string)
    ensures MapDbInstance(ExampleDb(id), [ExampleEni(owner)]).enis == if owner == RdsOwner then ["eni-1"] else []
  {
    ExampleDbLists(id);
    var e := ExampleEni(owner);
    var r := MapDbInstance(ExampleDb(id), [e]);
    Enis.OneCandidate(r.enis, e);
    if owner == RdsOwner {
      assert Owns(e, r.subnets, r.secGroups);
    } else {
      assert e.interfaceOwner != Some(RdsOwner);
    }
  }

  /** The matching example: the database claims the interface; with the
      owner changed to "amazon-ec2" the claim disappears; a second database
      with the same groups claims the same interface. */
  lemma MatchingExample()
    ensures MapDbInstance(ExampleDb("db-1"), [ExampleEni("amazon-rds")]).enis == ["eni-1"]
    ensures MapDbInstance(ExampleDb("db-1"), [ExampleEni("amazon-ec2")]).enis == []
    ensures MapDbInstance(ExampleDb("db-2"), [ExampleEni("amazon-rds")]).enis == ["eni-1"]
  {
    ExampleClaims("db-1", "amazon-rds");
    ExampleClaims("db-1", "amazon-ec2");
    ExampleClaims("db-2", "amazon-rds");
  }
}
