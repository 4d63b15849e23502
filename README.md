# aws-tree, modelled in Dafny

aws-tree lists the network resources of an AWS account and prints them as a
tree, VPC by VPC and subnet by subnet. Most resources name their VPC or subnet
directly. Many others (load balancers, databases, Lambda functions, container
tasks, transit gateway attachments, API Gateway VPC links, Kafka brokers, EC2
instances) are known only through their elastic network interfaces (ENIs), so
the program correlates each owner with the ENIs it believes it owns. It does this
by matching text in the ENI description, the requester-managed owner, the subnet
and the security groups.

This project models that core:

- the normalisers that turn each SDK record into the program's own model, with
  every `?? default` spelled out;
- the ENI correlators and id joins (gateway lookups by id, Kafka cluster by arn,
  ECS container interfaces by attachment id);
- the list helpers `intersectionOf`, `without`, `makeName` and the
  `combineAllPages` fold;
- the renderers' placement filters, which decide what appears under each VPC and
  each subnet;
- the "unaccounted ENIs" set difference;
- the NACL rule sort.

One module per source file; `Common` holds the shared list and text helpers.
SDK responses are parameters. Every optional SDK field is an `Option`, and
`Truthy` models JavaScript truthiness where the source relies on it.

Two snapshots of the mappers exist:

- the per-service files under `src/api-calls/`;
- the older single file `src/api-calls.ts`, whose types the renderers import.

Where the legacy mapper matches the newer one, the newer member models both:

| legacy lines | newer member |
|---|---|
| `src/api-calls.ts:105-117` | `Vpcs.MapVpc` |
| `src/api-calls.ts:127-141` | `Subnets.MapSubnet` |
| `src/api-calls.ts:154-172` | `Enis.MapEni` |
| `src/api-calls.ts:193-226` | `Nacls.MapNacl` |
| `src/api-calls.ts:242-274` | `SecGroups.MapSecurityGroup` |
| `src/api-calls.ts:292-320` | `VpcPeerings.MapPeering` |
| `src/api-calls.ts:327-338` | `InternetGateways.MapInternetGateway` |
| `src/api-calls.ts:422-437` | `VpcEndpoints.MapVpcEndpoint` |
| `src/api-calls.ts:452-512` | `Ecs.MapTask` |
| `src/api-calls.ts:523-537` | `LoadBalancers.MapLoadBalancer` |

Where the two differ, module `Legacy` models the older code:

- RDS matching without the owner check;
- NAT gateway address records;
- the shorter next-hop chain without `propagated`;
- the `AllResources` snapshot.

The renderers read `Legacy.AllResources`.

Colours are modelled as the ANSI escape sequences of the `colors` package:

| colour | code |
|---|---|
| green | 32 |
| grey | 90 |
| red | 31 |
| cyan | 36 |

Each sequence is closed by code 39. Numbers become decimal text (`NumText`).

## Model

| member | source | states |
|---|---|---|
| Helper.IntersectionOf | src/helper.ts:4-6 | the result keeps `a`'s order; it holds each element of `a` that occurs in `b`, with its multiplicity in `a`, and nothing else; it is non-empty exactly when the lists share an element |
| Helper.Without | src/helper.ts:26-28 | the result keeps `a`'s order; it holds each element of `a` absent from `other`, with its multiplicity in `a`; it is empty exactly when `other` covers `a` |
| Helper.WithoutWithout | src/renderers.ts:179-184 | two chained `without` calls remove the same elements as one call with the concatenated lists, so the five-step chain removes the union of all claims |
| Helper.MakeName | src/helper.ts:30-36 | both parts with a name over 50 characters gives the grey label only; both parts gives a green name, " / " and a grey label; one part gives that part (name green, label grey); neither gives nothing |
| Helper.CombineAllPages | src/helper.ts:8-19 | the loop's result equals `AllPages`: each page's non-blank entries in page order, an absent selection counting as empty |
| Helper.NonBlankMembership | src/helper.ts:15 | an entry survives `filter(it => it)` exactly when it is present and truthy |
| Helper.AllPagesAppend | src/helper.ts:12-18 | merging a page list split in two gives the concatenation of the two merges |
| Helper.AllPagesMembership | src/helper.ts:12-18 | a value is in the merged result exactly when some page's selection holds it and it is truthy |
| Helper.PrefixPages | src/helper.ts:13-16 | some page of a list holds a value exactly when some page of its prefix does or its last page does |
| Enis.MapIp | src/api-calls/eni.ts:25-30 | the private address defaults to "?ipv4"; the public address and its owner come from the association and are absent without one |
| Enis.MapEni | src/api-calls/eni.ts:20-33 | the defaulted id ("unknown-eni") and subnet ("?subnet"), the description kept as is, one model per address and per group; the mapper never sets an owner, type or link id |
| Enis.GetAllEnis | src/api-calls/eni.ts:20-33 | one model per raw interface, in order; none for an absent list |
| Enis.Ids | src/api-calls/eni.ts:22 | the i-th id is the id of the i-th interface |
| Enis.SubnetIds | src/api-calls/elb.ts:25 | the i-th entry is the subnet of the i-th interface |
| Enis.ClaimedIds | src/api-calls/elb.ts:24 | one id per interface the rule accepts, at the same position in the filtered list, so an ordered sub-list of the ids; it holds the id of every accepted interface and only such ids; it is empty when the rule accepts none |
| Enis.IdsMembership | src/api-calls/eni.ts:22 | an id is in the id list exactly when some interface carries it |
| Enis.OneCandidate | src/api-calls/rds.ts:32-40 | over one interface, a claim list is empty or exactly that interface's id |
| Enis.ClaimsParallel | src/api-calls/elb.ts:24-25 | the id list and the subnet list of one claim rule have the same length, and position i of both comes from one accepted interface |
| Rds.DbSubnets | src/api-calls/rds.ts:21 | the subnet identifiers of the subnet group, in order, "?subnet" for a missing one; empty without a group or subnet list |
| Rds.DbSecGroups | src/api-calls/rds.ts:22-23 | the ids of the active memberships, one per membership, in membership order, "?vpc" for a missing id; none without a membership list |
| Rds.MapDbInstance | src/api-calls/rds.ts:20-42 | the defaulted fields, the VPC id being the subnet group's (or "?vpc"); the database claims an interface exactly when its description is "RDSNetworkInterface", its owner is "amazon-rds", its subnet is one of the database's and it shares an active group; claims keep interface order; no subnet group gives no claims; the claim list holds one id per claimed interface, in interface order, so an id shared by two claimed interfaces (such as a defaulted "unknown-eni") is listed twice |
| Rds.GetAllRdsInstances | src/api-calls/rds.ts:20-42 | one model per instance, in order; with no interfaces no instance claims any |
| Rds.SameGroupsSameClaims | src/api-calls/rds.ts:32-40 | two databases with the same subnets and groups claim the same interfaces: the rule cannot tell them apart |
| Rds.MappedEnisNeverClaimed | src/api-calls/rds.ts:36 | interfaces straight from the ENI mapper carry no owner, so no database claims any of them |
| Rds.ExampleDbLists | src/api-calls/rds.ts:21-23 | a concrete database's subnet and group lists, and a non-empty group intersection |
| Rds.ExampleClaims | src/api-calls/rds.ts:35-38 | the concrete matching interface is claimed exactly when its owner is "amazon-rds" |
| Rds.MatchingExample | src/api-calls/rds.ts:32-40 | concrete claims: the matching interface is claimed, the same interface owned by EC2 is not, and a second database with the same groups claims it too |
| LoadBalancers.MapLoadBalancer | src/api-calls/elb.ts:19-26 | the defaulted fields; the claims are exactly the interfaces whose description contains the name (a single space for an absent name), in order; `subnets` has the same length as `enis`; the claim list holds one id per claimed interface, in interface order, so an id shared by two claimed interfaces (such as a defaulted "unknown-eni") is listed twice |
| LoadBalancers.SubnetsParallel | src/api-calls/elb.ts:24-25 | the i-th subnet is the subnet of the interface that gave the i-th id |
| LoadBalancers.GetAllLoadBalancers | src/api-calls/elb.ts:19-26 | one model per load balancer, in order; none for an absent list |
| LoadBalancers.FilterDescribed | src/api-calls/elb.ts:24 | filtering to described interfaces first does not change which interfaces the description test accepts |
| LoadBalancers.UndescribedNeverClaimed | src/api-calls/elb.ts:24-25 | removing interfaces without a description changes no load balancer model |
| LoadBalancers.SubstringFragility | src/api-calls/elb.ts:24 | substring matching: load balancers "web-lb" and "lb" both claim the interface of "web-lb-internal" |
| LoadBalancers.ClaimsSingle | src/api-calls/elb.ts:24 | over one interface whose description contains the name, the claim is that interface's id |
| LoadBalancers.IdlessEnisCountedOneByOne | src/api-calls/elb.ts:24 | two interfaces that both default to "unknown-eni" are counted one by one: with one described the id is listed once, with both described twice |
| LoadBalancers.NamelessClaimsSpaces | src/api-calls/elb.ts:20-24 | a nameless load balancer is recorded as "unknown-load-balancer" but claims every interface whose description has a space |
| Lambdas.MapLambda | src/api-calls/lambda.ts:22-35 | the defaulted fields; the claims are exactly the interfaces whose description contains "ENI-" + name + "-" and whose subnet is configured; no configured subnet gives no claims; the claim list holds one id per claimed interface, in interface order, so an id shared by two claimed interfaces (such as a defaulted "unknown-eni") is listed twice |
| Lambdas.GetAllLambdas | src/api-calls/lambda.ts:20-35 | a model for each function with a VPC configuration and only those; none when no function has one |
| Lambdas.LambdasInFunctionOrder | src/api-calls/lambda.ts:20-35 | exactly one model per VPC-configured function, in function order |
| TransitGateways.MapTgw | src/api-calls/tgw.ts:35-43 | the defaulted gateway fields; the ASN comes from the options and is absent without them |
| TransitGateways.AttachmentLogicalId | src/api-calls/tgw.ts:49 | the value of the first tag under either logical-id key, whichever key comes first; whenever such a tag exists its value is the answer |
| TransitGateways.MapAttachment | src/api-calls/tgw.ts:46-59 | the gateway is the first whose id equals the attachment's gateway id, and none when no gateway id is given; the VPC is the resource id only for VPC attachments; the claims are exactly the interfaces whose description contains the attachment id ("tgw-attach-xxxxx" when absent), with a parallel subnet list; the claim list holds one id per claimed interface, in interface order, so an id shared by two claimed interfaces (such as a defaulted "unknown-eni") is listed twice |
| TransitGateways.SubnetsParallel | src/api-calls/tgw.ts:53-58 | the i-th subnet belongs to the interface that gave the i-th id |
| TransitGateways.GetAllTgwAttachments | src/api-calls/tgw.ts:35-59 | one model per attachment, in order, joined against the normalised gateways |
| TransitGateways.DefaultedGatewayMatches | src/api-calls/tgw.ts:37 | a gateway listed without an id becomes "unknown-tgw", and an attachment naming "unknown-tgw" joins to it |
| ApiGateway.MapVpcLink | src/api-calls/api-gw.ts:14-23 | the defaulted link fields; the claims are exactly the interfaces of type "api_gateway_managed" whose link id equals the link's, in order; the claim list holds one id per claimed interface, in interface order, so an id shared by two claimed interfaces (such as a defaulted "unknown-eni") is listed twice |
| ApiGateway.GetAllApiGwVpcLinks | src/api-calls/api-gw.ts:14-23 | one model per item, none when items are absent |
| ApiGateway.MappedEnisNeverClaimed | src/api-calls/api-gw.ts:20-22 | interfaces straight from the ENI mapper carry no type, so no link claims any of them |
| ApiGateway.IdlessLinksShareClaims | src/api-calls/api-gw.ts:20-22 | two links both lacking an id claim the same interfaces |
| Ecs.DetailValue | src/api-calls/ecs.ts:47 | the value of the first detail with the key, and whenever such a detail exists its value is the answer; absent when no detail has it |
| Ecs.DetailValues | src/api-calls/ecs.ts:47 | one value per attachment, in attachment order, the default when the attachment has no such detail; none without attachments |
| Ecs.AttachmentValues | src/api-calls/ecs.ts:45-49 | the distinct per-attachment values in first-occurrence order (the `new Set` spread): without duplicates, holding each attachment's defaulted value and nothing else; empty without attachments |
| Ecs.AttachmentOf | src/api-calls/ecs.ts:66-67 | the first attachment whose id equals the interface's attachment id, and none exactly when no attachment matches |
| Ecs.ContainerEni | src/api-calls/ecs.ts:65-68 | the interface id of the joined attachment, "?eni" when the attachment or its detail is missing |
| Ecs.MapContainer | src/api-calls/ecs.ts:58-70 | the defaulted container fields and one resolved interface per container interface, in order |
| Ecs.MapTask | src/api-calls/ecs.ts:42-71 | the defaulted task fields, the de-duplicated subnets and interfaces, and one container model per container |
| Ecs.AllTasks | src/api-calls/ecs.ts:40 | the clusters' task lists concatenated in cluster order, an absent list contributing nothing; so a task is in the merged list exactly when some cluster's answer holds it |
| Ecs.GetAllEcsTasks | src/api-calls/ecs.ts:40-42 | one model per merged task, in order |
| Ecs.ContainerEnisAmongTaskEnis | src/api-calls/ecs.ts:50-56 | every container interface that resolves is among the task's interfaces |
| Ecs.SharedSubnetListedOnce | src/api-calls/ecs.ts:45-49 | two attachments in the same subnet give a single subnet entry |
| Vpns.MapCustomerGateway | src/api-calls/vpns.ts:48-56 | the defaulted customer-gateway fields |
| Vpns.MapVpnConnection | src/api-calls/vpns.ts:58-73 | the defaulted connection fields, one tunnel per telemetry entry; the customer gateway is the first whose id equals the connection's, and none without an id |
| Vpns.AttachedVpcIds | src/api-calls/vpns.ts:83 | the VPC ids of the attachments in state "attached", one per attachment, in attachment order, "?vpc" for a missing id |
| Vpns.MapVgw | src/api-calls/vpns.ts:76-85 | line 84 as written: a gateway with a non-empty id lists every connection, one with an empty id lists none, one without an id lists those whose gateway id is "unknown"; the listed connections are always an ordered sub-list of the input |
| Vpns.MapVgwIntended | src/api-calls/vpns.ts:84 | the intended join: exactly the connections whose gateway id equals the gateway's defaulted id, in order |
| Vpns.IntendedGatewaysDisjoint | src/api-calls/vpns.ts:84 | under the intended join, no connection is listed under two gateways with different ids |
| Vpns.ConnectionListedUnderEveryGateway | src/api-calls/vpns.ts:84 | as written, a connection to vgw-2 is listed under both vgw-1 and vgw-2; intended, under vgw-2 only |
| Vpns.GetAllVirtualGateways | src/api-calls/vpns.ts:48-86 | one gateway model per gateway, in order, each over all the connections |
| Vpns.AllConnections | src/api-calls/vpns.ts:58-73 | one connection model per connection, joined against all customer gateways |
| Kafka.MapCluster | src/api-calls/kafka.ts:20-24 | the defaulted cluster fields |
| Kafka.MapNode | src/api-calls/kafka.ts:35-41 | the defaulted node fields; the cluster is the first whose arn equals the node's, and none without an arn; the interface is the broker's, "?eni" otherwise |
| Kafka.AllNodes | src/api-calls/kafka.ts:26-33 | the clusters' node lists, each tagged with that cluster's raw arn, concatenated in cluster order; so a node is in the list exactly when some listed cluster has that node info |
| Kafka.Tagged | src/api-calls/kafka.ts:29 | one node per listed node info, in order, each carrying the cluster's raw arn |
| Kafka.GetAllKafkaNodes | src/api-calls/kafka.ts:33-41 | one model per flattened node, in order, joined against the normalised clusters |
| Kafka.ArnlessClusterLosesItsNodes | src/api-calls/kafka.ts:20-41 | the nodes of a cluster without an arn find no cluster, even though the cluster is recorded as "unknown-kafka-cluster" (a property of the join: the node listing for such a cluster would fail first) |
| Ec2.MapInstance | src/api-calls/ec2.ts:19-30 | the defaulted instance fields; subnets and interfaces are parallel, one per network interface, with defaults "?subnet" and "?eni?" |
| Ec2.GetAllEc2Instances | src/api-calls/ec2.ts:19-30 | one model per instance, in order |
| Ec2.SubnetOfEachEni | src/api-calls/ec2.ts:27-28 | each network interface gives one position holding both its id and its subnet |
| Nacls.Addresses | src/api-calls/nacl.ts:38 | the non-empty IPv4 and IPv6 blocks joined by a comma; empty text when neither is given |
| Nacls.DestPorts | src/api-calls/nacl.ts:39-42 | absent exactly when neither end of the port range is given; one number when both ends agree; otherwise "from-to" |
| Nacls.MapEntry | src/api-calls/nacl.ts:36-44 | rule number (-1 when absent), action ("?action"), address text and port text |
| Nacls.MapNacl | src/api-calls/nacl.ts:29-55 | the defaulted ACL fields, the associated subnets, and ingress and egress as the mapped non-egress and egress entries in order |
| Nacls.GetAllNacls | src/api-calls/nacl.ts:29-55 | one model per ACL, in order |
| Nacls.EntriesPartitioned | src/api-calls/nacl.ts:36-54 | every entry lands in exactly one of ingress and egress; the lengths add up to the entry count |
| Nacls.NoRangeNoPorts | src/api-calls/nacl.ts:39-42 | an entry without a port range has no port text, so it later reads "any ports" |
| SecGroups.PortText | src/api-calls/sec-group.ts:31 | "-1" when neither port is given; one number when both agree; otherwise "from-to" |
| SecGroups.Peers | src/api-calls/sec-group.ts:32-37 | IPv4 ranges, then IPv6 ranges, then prefix lists, then group pairs, each block in order |
| SecGroups.MapRule | src/api-calls/sec-group.ts:30-38 | a rule's port text and its peers |
| SecGroups.MapSecurityGroup | src/api-calls/sec-group.ts:24-49 | the defaulted group fields and one rule model per ingress and per egress permission |
| SecGroups.GetAllSecurityGroups | src/api-calls/sec-group.ts:24-49 | one model per group, in order |
| SecGroups.MinusOneAmbiguous | src/api-calls/sec-group.ts:31 | a rule with no ports and a rule with ports -1 both read "-1" |
| SecGroups.PeerOrigins | src/api-calls/sec-group.ts:32-37 | every peer comes from one of the four lists |
| RouteTables.FirstPresent | src/api-calls/route-table.ts:34-46 | a `??` chain: the first present candidate, else the default |
| RouteTables.IsMain | src/api-calls/route-table.ts:26 | the scan for a main association succeeds exactly when some association is the main one |
| RouteTables.SubnetAssociations | src/api-calls/route-table.ts:28-31 | one subnet per non-main association in state "associated", in association order, "?subnet" for a missing id, and no other; none without associations |
| RouteTables.MapRoute | src/api-calls/route-table.ts:33-49 | the destination is the first of IPv4, IPv6 and prefix list; the next hop is the first present of the nine candidates, else "unknown"; `propagated` holds exactly for routes from VGW propagation |
| RouteTables.MapRouteTable | src/api-calls/route-table.ts:23-50 | the defaulted table fields, main flag, subnet associations and one route model per route |
| RouteTables.GetAllRouteTables | src/api-calls/route-table.ts:23-50 | one model per table, in order |
| RouteTables.MainAssociationListsNoSubnet | src/api-calls/route-table.ts:26-31 | a table whose only association is the main one is main and lists no subnet |
| RouteTables.MainTableListsFewerSubnets | src/api-calls/route-table.ts:26-31 | on a main table the main association is never listed, so fewer subnets are listed than the table has associations |
| VpcPeerings.MapSide | src/api-calls/vpc-peering.ts:31-38 | the side's IPv4 blocks then its IPv6 blocks, and defaulted VPC and account ids |
| VpcPeerings.MapPeering | src/api-calls/vpc-peering.ts:26-47 | the defaulted connection fields and both sides built by the same rule |
| VpcPeerings.GetAllVpcPeerings | src/api-calls/vpc-peering.ts:26-47 | one model per connection, in order |
| VpcPeerings.SidesSymmetric | src/api-calls/vpc-peering.ts:31-46 | swapping the raw requester and accepter swaps the two modelled sides |
| VpcEndpoints.MapVpcEndpoint | src/api-calls/vpc-endpoint.ts:19-27 | the defaulted endpoint fields; private DNS only when it is explicitly enabled; the endpoint's own interface ids |
| VpcEndpoints.GetAllVpcEndpoints | src/api-calls/vpc-endpoint.ts:19-27 | one model per endpoint, in order |
| Subnets.MapSubnet | src/api-calls/subnet.ts:18-25 | the defaulted subnet fields, with 0 available addresses when the count is missing |
| Subnets.GetAllSubnets | src/api-calls/subnet.ts:18-25 | one model per subnet, in order |
| NatGateways.MapNatGateway | src/api-calls/nat-gw.ts:16-21 | the defaulted gateway fields and one interface id per address, "?eni" when missing |
| NatGateways.GetAllNatGateways | src/api-calls/nat-gw.ts:16-21 | one model per gateway, in order |
| InternetGateways.MapInternetGateway | src/api-calls/igw.ts:15-19 | the defaulted gateway fields; one VPC id per attachment in state "available", in attachment order, and no other |
| InternetGateways.GetAllInternetGateways | src/api-calls/igw.ts:15-19 | one model per gateway, in order |
| InternetGateways.UnavailableAttachmentsIgnored | src/api-calls/igw.ts:18 | a gateway with no available attachment lists no VPC |
| Vpcs.MapVpc | src/api-calls/vpc.ts:16-21 | the defaulted VPC fields; the IPv4 blocks from the association set, or the primary block when the set is absent |
| Vpcs.GetAllVpcs | src/api-calls/vpc.ts:16-21 | one model per VPC, in order |
| Vpcs.EmptyAssociationSetHidesPrimaryCidr | src/api-calls/vpc.ts:19 | an empty association set shows no block, although an absent set would show the primary one |
| Legacy.MapDbInstance | src/api-calls.ts:548-576 | the legacy database rule: the VPC id is the subnet group's (or "?vpc"); an interface is claimed on description, subnet and shared active group, with no owner check; claims keep interface order; the claim list holds one id per claimed interface, in interface order, so an id shared by two claimed interfaces (such as a defaulted "unknown-eni") is listed twice |
| Legacy.GetAllRdsInstances | src/api-calls.ts:548-576 | one legacy model per instance, in order |
| Legacy.SplitClaimsWithinLegacy | src/api-calls.ts:565-572 | the newer rule's claims are an ordered sub-list of the legacy rule's |
| Legacy.SameClaimsWhenOwnedByRds | src/api-calls.ts:565-572 | when every interface is owned by "amazon-rds" the two rules claim the same list |
| Legacy.ExampleClaimsLegacy | src/api-calls.ts:565-572 | the legacy rule claims the concrete matching interface whatever its owner |
| Legacy.LegacyIgnoresOwner | src/api-calls.ts:565-572 | an interface owned by EC2 is claimed by the legacy rule and not by the newer one |
| Legacy.MapNatAddress | src/api-calls.ts:360-364 | one address record with interface, private and public address, each defaulted |
| Legacy.MapNatGateway | src/api-calls.ts:350-367 | the defaulted gateway fields and one record per address |
| Legacy.GetAllNatGateways | src/api-calls.ts:350-367 | one legacy model per gateway, in order |
| Legacy.NatEnisAgree | src/api-calls.ts:359-364 | the records' interface ids are exactly the newer snapshot's id list, and the subnets agree |
| Legacy.MapRoute | src/api-calls.ts:396-408 | the same destination as the newer mapper; the next hop is the first present of the six legacy candidates, else "unknown" |
| Legacy.MapRouteTable | src/api-calls.ts:381-411 | the same table fields as the newer mapper, with legacy routes |
| Legacy.GetAllRouteTables | src/api-calls.ts:381-411 | one legacy model per table, in order |
| Legacy.ViaAgreesWithoutNewHops | src/api-calls.ts:399-406 | without carrier, egress-only and instance next hops, the two chains pick the same next hop |
| Legacy.InstanceRouteDiffers | src/api-calls.ts:399-406 | a route through an instance that also names its interface shows the instance in the newer mapper and the interface in the legacy one |
| Renderers.MakeNamePair | src/renderers.ts:4-9 | both parts gives a green name, " / " and a grey label; one part gives that part in green; neither gives nothing |
| Renderers.NamePairVsMakeName | src/renderers.ts:4-9 | unlike `makeName`, a lone label is green, and a long name is not dropped; the two agree on a short name with a label |
| Renderers.EgressLineFromRule | src/renderers.ts:245-251 | the line begins with a red DENY exactly when the single peer is 255.255.255.255/32 and the port text is "252-86"; otherwise it is the ALLOW line over the joined peers |
| Renderers.DenyAllPortFromMapper | src/renderers.ts:246 | the rule mapper produces "252-86" for ports 252 and 86 |
| Renderers.VpcPlacementSelects | src/renderers.ts:11-48 | each list under a VPC holds exactly the snapshot's records that pass that list's filter, in snapshot order |
| Renderers.AllClaims | src/renderers.ts:179-184 | an id is in the claim list exactly when some NAT gateway, endpoint, load balancer, task or database claims it |
| Renderers.FlattenClaims | src/renderers.ts:180-184 | `flatMap` over owners holds an id exactly when some owner's list does |
| Renderers.UnknownEnis | src/renderers.ts:179-184 | the subnet's interface ids, in order, that no owner claims, and all such ids |
| Renderers.SubnetPlacementSelects | src/renderers.ts:124-196 | each list under a subnet holds exactly the snapshot's records that pass that list's filter, in snapshot order; the unaccounted list is `UnknownEnis` |
| Renderers.OneLevelOnly | src/renderers.ts:34-153 | an ACL or endpoint shown under its VPC is never shown under a subnet |
| Renderers.AssignedSelection | src/renderers.ts:149 | as written, the filter keeps every interface when the subnet id is non-empty and none when it is empty |
| Renderers.Reassigned | src/renderers.ts:149 | after line 149 every interface object has the subnet's id and is otherwise unchanged |
| Renderers.EnisInSubnet | src/renderers.ts:149 | the intended selection: one id per interface whose subnet is this one, in interface order, and no other |
| Renderers.EnisInThisSubnet | src/renderers.ts:149 | line 149 as written, on the shared interface array: every object's subnet is overwritten and the selection is `AssignedSelection` |
| Renderers.ReassignedKeepsIds | src/renderers.ts:149 | the assignment leaves every interface id in place |
| Renderers.ReassignTwice | src/renderers.ts:126-149 | of two subnets rendered in turn, only the later assignment shows |
| Renderers.ForeignInterfaceSelected | src/renderers.ts:149 | an interface of another subnet is selected as written and not by the intended comparison |
| Renderers.AssignmentPersists | src/renderers.ts:149 | once line 149 has run, even the intended comparison selects every interface |
| Renderers.AgreeWhenAllInSubnet | src/renderers.ts:149 | the two readings agree when every interface really is in the subnet |
| Renderers.ShownOwnedEnis | src/renderers.ts:334-348 | exactly the interfaces in the subnet that the owner claims, as an ordered sub-list of the interfaces |
| Renderers.OwnedEnisShownAfterAssignment | src/renderers.ts:334-348 | after line 149 every interface an owner claims is shown under the subnet, wherever it really is |
| Renderers.RenderSubnet | src/renderers.ts:126-195 | one iteration: the subnet's view over the interface ids, and every interface object reassigned to the subnet |
| Renderers.RenderSubnets | src/renderers.ts:124-196 | one view per subnet, in order, and the interface objects as left by the last assignment |
| Renderers.AfterSubnetsStep | src/renderers.ts:126-149 | rendering one more subnet applies one more assignment and keeps the ids |
| Renderers.AfterSubnetsKeepsIds | src/renderers.ts:149 | any sequence of subnet renders keeps the interface ids |
| Renderers.AfterSubnetsAppend | src/renderers.ts:13-47 | rendering one subnet list after another equals rendering their concatenation |
| Renderers.RenderVpcs | src/renderers.ts:11-48 | one entry per VPC of the snapshot, in order (the `vpcs` argument is unused), and the interface objects after every subnet shown |
| Renderers.RenderVpc | src/renderers.ts:13-47 | one VPC's entry and the interface objects after its subnets |
| Renderers.SubnetsShownStep | src/renderers.ts:13-46 | the subnets rendered for one more VPC are the previous ones followed by that VPC's subnets |
| Renderers.SortByRuleNumber | src/renderers.ts:104-105 | the rules end in ascending rule-number order, are a permutation of the original rules, and the sort is stable: for every rule number the entries carrying it keep their original order, as with JavaScript's stable sort (equal numbers occur: -1 for a missing number, and the two default rules of a dual-stack ACL) |
| Renderers.InsertLast | src/renderers.ts:105 | one insertion step: a sorted prefix grows by one, the rules stay a permutation, and entries of equal rule number keep their order |
| Renderers.SwapStep | src/renderers.ts:105 | swapping an out-of-order pair keeps the insertion invariant one position further left |
| Renderers.SwapKeepsOrderPerRuleNumber | src/renderers.ts:105 | exchanging two neighbours with different rule numbers keeps the order among the entries of every rule number |
| Renderers.InsertDone | src/renderers.ts:105 | when the inserted rule meets a smaller or equal one, the prefix is sorted one further |

## Left out

- Paging and I/O: the SDK clients, `paginate*`, `allPages`/`allPagesThrowing`
  and `for await` are out of scope. Responses are parameters, and the page fold
  is modelled over a sequence of pages (`Helper.CombineAllPages`).
- Promise.all orchestration, `getAllResources` and `src/index.ts`: these are
  sequencing of I/O only. `Legacy.AllResources` is the snapshot they return.
- Console output is not modelled: indentation, the box-drawing characters and
  the text of `renderRouteTables`, `renderInternetGateways`, `renderVpcPeering`,
  `renderNatGateways`, `renderEnis`, `renderSecGroups` and
  `ingressLineFromRule` are printing only. Their selections are modelled.
- The per-endpoint interface filter at src/renderers.ts:294 is left out: it
  only picks which interface details to print.
- Object.freeze and the `Array.prototype.without` installation: immutability
  and prototype patching have no counterpart in a value model.
- The render loops (Renderers.RenderVpcs and the members below it) do not apply
  the NACL sort to the ACLs they select, so their views keep API rule order.
  The sort is modelled on its own as Renderers.SortByRuleNumber.
- Number formatting (`padStart`, `toString` of floating-point values):
  numbers are modelled as integers with decimal text.
- Ec2.GetAllEc2Instances takes the flattened instance list. The reservations
  `flatMap` at src/api-calls/ec2.ts:17 is a paging selector.
- Colours are modelled as the concrete ANSI codes of the `colors` package.
  Bold and yellow are left out because only printing uses them.
- Colours are modelled as enabled. With `--no-color` (or no colour support)
  the `colors` package returns the text unchanged, and the difference that
  Renderers.NamePairVsMakeName proves between a green and a grey label
  disappears.
- Helper.MakeName: the length test `a.length > 50` counts Unicode scalar
  values (Dafny characters), whereas JavaScript counts UTF-16 code units, so a
  name holding characters outside the Basic Multilingual Plane switches to the
  label-only branch at a shorter length in the program than in the model.

## Findings

| source | as written | input that shows it | evidently intended | confidence | as-written member | corrected member |
|---|---|---|---|---|---|---|
| src/renderers.ts:149 | `it.subnetId = net.id` assigns inside the filter. Every interface is selected when the subnet id is non-empty, and every shared interface object is moved into the subnet. | One interface "eni-1" in "subnet-1", rendering "subnet-2": it is listed as unaccounted under "subnet-2", and its object now says "subnet-2" | `it.subnetId == net.id`: the ids of the interfaces in this subnet | not executed | Renderers.EnisInThisSubnet (with Renderers.ForeignInterfaceSelected) | Renderers.EnisInSubnet (with Renderers.AgreeWhenAllInSubnet) |
| src/api-calls/vpns.ts:84 | `vgw.VpnGatewayId ?? 'unknown' == vpn.vpnGatewayId` parses as `VpnGatewayId ?? ('unknown' == …)`, so a gateway with an id lists every connection | Gateways "vgw-1" and "vgw-2" and one connection to "vgw-2": it is listed under both | `(vgw.VpnGatewayId ?? 'unknown') == vpn.vpnGatewayId` | not executed | Vpns.MapVgw (with Vpns.ConnectionListedUnderEveryGateway) | Vpns.MapVgwIntended (with Vpns.IntendedGatewaysDisjoint) |

The render loops (`Renderers.RenderSubnet`, `Renderers.RenderSubnets`,
`Renderers.RenderVpcs`) and `Vpns.GetAllVirtualGateways` keep the as-written
behaviour, because they model what the program prints. The corrected members
stand beside them, with the intended properties proved.
