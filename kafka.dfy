/** src/api-calls/kafka.ts: managed Kafka clusters and their broker nodes;
    a node is joined to its cluster by arn and names its interface directly. */
module Kafka {
  import opened Common

  // Raw SDK shapes (ListClusters, ListNodes).
  datatype ClusterInfo = ClusterInfo(clusterArn: Option<string>, clusterName: Option<string>, state: Option<string>)
  datatype BrokerNodeInfo = BrokerNodeInfo(attachedEniId: Option<string>)
  datatype NodeInfo = NodeInfo(
    nodeArn: Option<string>,
    nodeType: Option<string>,
    instanceType: Option<string>,
    brokerNodeInfo: Option<BrokerNodeInfo>)

  /** A node listed under a cluster, tagged with the cluster's raw arn. */
  datatype ClusterNode = ClusterNode(clusterArn: Option<string>, nodeInfo: NodeInfo)

  datatype KafkaClusterModel = KafkaClusterModel(arn: string, name: string, state: string)
  datatype KafkaNodeModel = KafkaNodeModel(
    id: string,
    nodeType: string,
    instanceType: string,
    cluster: Option<KafkaClusterModel>,
    eni: string)

  function MapCluster(c: ClusterInfo): (r: KafkaClusterModel)
    ensures r.arn == c.clusterArn.GetOr("unknown-kafka-cluster")
    ensures r.name == c.clusterName.GetOr("unknown-kafka-cluster")
    ensures r.state == c.state.GetOr("UNKNOWN")
  {
    KafkaClusterModel(
      c.clusterArn.GetOr("unknown-kafka-cluster"),
      c.clusterName.GetOr("unknown-kafka-cluster"),
      c.state.GetOr("UNKNOWN"))
  }

  /** `clusters.find(cluster => cluster.arn == node.clusterArn)`. */
  predicate IsClusterOf(c: KafkaClusterModel, node: ClusterNode) {
    Some(c.arn) == node.clusterArn
  }

  function MapNode(node: ClusterNode, clusters: seq<KafkaClusterModel>): (r: KafkaNodeModel)
    ensures r.id == node.nodeInfo.nodeArn.GetOr("unknown-kafka-node")
    ensures r.nodeType == node.nodeInfo.nodeType.GetOr("UNKNOWN") && r.instanceType == node.nodeInfo.instanceType.GetOr("unknown")
    ensures r.cluster.None? <==> forall i :: 0 <= i < |clusters| ==> !IsClusterOf(clusters[i], node)
    ensures r.cluster.Some? ==>
              exists i :: 0 <= i < |clusters| && clusters[i] == r.cluster.value && IsClusterOf(clusters[i], node) &&
                forall j :: 0 <= j < i ==> !IsClusterOf(clusters[j], node)
    ensures node.clusterArn.None? ==> r.cluster.None?
    ensures node.nodeInfo.brokerNodeInfo.Some? ==> r.eni == node.nodeInfo.brokerNodeInfo.value.attachedEniId.GetOr("?eni")
    ensures node.nodeInfo.brokerNodeInfo.None? ==> r.eni == "?eni"
  {
    KafkaNodeModel(
      node.nodeInfo.nodeArn.GetOr("unknown-kafka-node"),
      node.nodeInfo.nodeType.GetOr("UNKNOWN"),
      node.nodeInfo.instanceType.GetOr("unknown"),
      Find(clusters, (c: KafkaClusterModel) => IsClusterOf(c, node)),
      if node.nodeInfo.brokerNodeInfo.Some? then node.nodeInfo.brokerNodeInfo.value.attachedEniId.GetOr("?eni") else "?eni")
  }

  /** One cluster's listed nodes, each tagged with the cluster's raw arn. */
  function Tagged(entry: (ClusterInfo, seq<NodeInfo>)): (r: seq<ClusterNode>)
    ensures |r| == |entry.1| && forall i :: 0 <= i < |r| ==> r[i] == ClusterNode(entry.0.clusterArn, entry.1[i])
  {
    Map(entry.1, (ni: NodeInfo) => ClusterNode(entry.0.clusterArn, ni))
  }

  /** `nodesPerCluster.flat(1)`: each cluster's nodes tagged with its raw arn,
      clusters in order. */
  function AllNodes(listing: seq<(ClusterInfo, seq<NodeInfo>)>): (r: seq<ClusterNode>)
    // The clusters' tagged lists concatenated in cluster order.
    ensures r == Flatten(Map(listing, Tagged))
    ensures forall n :: n in r <==> exists c :: 0 <= c < |listing| && n.clusterArn == listing[c].0.clusterArn && n.nodeInfo in listing[c].1
    decreases |listing|
  {
    if listing == [] then []
    else
      var here := Tagged(listing[0]);
      var rest := AllNodes(listing[1..]);
      assert Map(listing, Tagged) == [here] + Map(listing[1..], Tagged);
      assert forall c :: 1 <= c < |listing| ==> listing[c] == listing[1..][c - 1];
      assert forall n :: n in here <==> n.clusterArn == listing[0].0.clusterArn && n.nodeInfo in listing[0].1 by {
        forall n: ClusterNode | n.clusterArn == listing[0].0.clusterArn && n.nodeInfo in listing[0].1
          ensures n in here
        {
          var i :| 0 <= i < |listing[0].1| && listing[0].1[i] == n.nodeInfo;
          assert here[i] == n;
        }
      }
      here + rest
  }

  /** `getAllKafkaNodes` after the listing calls: every cluster's nodes, in
      cluster order, each joined to the first cluster model with its arn. */
  function GetAllKafkaNodes(listing: seq<(ClusterInfo, seq<NodeInfo>)>): (r: seq<KafkaNodeModel>)
    ensures |r| == |AllNodes(listing)|
    ensures forall i :: 0 <= i < |r| ==>
              r[i] == MapNode(AllNodes(listing)[i], Map(listing, (p: (ClusterInfo, seq<NodeInfo>)) => MapCluster(p.0)))
  {
    var clusters := Map(listing, (p: (ClusterInfo, seq<NodeInfo>)) => MapCluster(p.0));
    Map(AllNodes(listing), (node: ClusterNode) => MapNode(node, clusters))
  }

  /** A cluster listed without an arn is modelled as "unknown-kafka-cluster",
      but its own nodes carry no arn and so never find it. In the running
      program the ListNodes call for such a cluster is made with an undefined
      ClusterArn and would be refused by the service before this join, so
      this is a property of the join alone, not a reachable outcome. */
  lemma ArnlessClusterLosesItsNodes(c: ClusterInfo, ni: NodeInfo)
    requires c.clusterArn.None?
    ensures GetAllKafkaNodes([(c, [ni])]) != []
    ensures GetAllKafkaNodes([(c, [ni])])[0].cluster.None?
  {
    assert AllNodes([(c, [ni])]) == [ClusterNode(None, ni)] by {
      assert [(c, [ni])][1..] == [];
    }
  }
}
