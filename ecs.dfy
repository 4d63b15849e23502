/** src/api-calls/ecs.ts: container tasks, whose network interfaces and
    subnets are read from the task's attachment details and, per container,
    joined through the attachment id. */
module Ecs {
  import opened Common

  // Raw SDK shapes (DescribeTasks).
  datatype KeyValuePair = KeyValuePair(name: Option<string>, value: Option<string>)
  datatype Attachment = Attachment(id: Option<string>, details: Option<seq<KeyValuePair>>)
  datatype NetworkInterface = NetworkInterface(attachmentId: Option<string>)
  datatype Container = Container(
    containerArn: Option<string>,
    name: Option<string>,
    lastStatus: Option<string>,
    healthStatus: Option<string>,
    networkInterfaces: Option<seq<NetworkInterface>>)
  datatype Task = Task(
    taskArn: Option<string>,
    connectivity: Option<string>,
    attachments: Option<seq<Attachment>>,
    containers: Option<seq<Container>>)

  datatype ContainerModel = ContainerModel(
    arn: string,
    name: Option<string>,
    status: string,
    health: string,
    enis: seq<string>)

  datatype EcsTaskModel = EcsTaskModel(
    arn: string,
    connectivity: string,
    subnetIds: seq<string>,
    enis: seq<string>,
    containers: seq<ContainerModel>)

  /** `att.details?.find(it => it.name == key)?.value`. */
  function DetailValue(att: Attachment, key: string): (r: Option<string>)
    ensures att.details.None? ==> r.None?
    ensures r.Some? ==> exists i :: 0 <= i < |att.details.value| &&
                          att.details.value[i] == KeyValuePair(Some(key), r) &&
                          forall j :: 0 <= j < i ==> att.details.value[j].name != Some(key)
    // The first detail with the key decides.
    ensures att.details.Some? ==>
              forall i :: 0 <= i < |att.details.value| && att.details.value[i].name == Some(key) &&
                          (forall j :: 0 <= j < i ==> att.details.value[j].name != Some(key))
                ==> r == att.details.value[i].value
  {
    if att.details.None? then None
    else match Find(att.details.value, (d: KeyValuePair) => d.name == Some(key))
      case None => None
      case Some(d) => d.value
  }

  /** `task.attachments?.map(it => <detail key> ?? default)`: one value per
      attachment, in order. */
  function DetailValues(task: Task, key: string, default: string): (r: seq<string>)
    ensures task.attachments.None? ==> r == []
    ensures task.attachments.Some? ==>
              |r| == |task.attachments.value| &&
              forall i :: 0 <= i < |r| ==> r[i] == DetailValue(task.attachments.value[i], key).GetOr(default)
  {
    MapOpt(task.attachments, (att: Attachment) => DetailValue(att, key).GetOr(default))
  }

  /** One value per attachment (with a default), then de-duplicated. */
  function AttachmentValues(task: Task, key: string, default: string): (r: seq<string>)
    // `[...new Set(values)]`: each value once, in first-occurrence order.
    ensures r == Distinct(DetailValues(task, key, default))
    ensures task.attachments.None? ==> r == []
    ensures task.attachments.Some? ==> forall att :: att in task.attachments.value ==> DetailValue(att, key).GetOr(default) in r
    ensures task.attachments.Some? ==> forall v :: v in r ==>
              exists att :: att in task.attachments.value && DetailValue(att, key).GetOr(default) == v
    ensures forall i, j :: 0 <= i < j < |r| ==> r[i] != r[j]
  {
    var values := DetailValues(task, key, default);
    assert task.attachments.Some? ==> forall att :: att in task.attachments.value ==>
      exists i :: 0 <= i < |values| && task.attachments.value[i] == att;
    Distinct(values)
  }

  /** The attachment a container interface refers to: the first whose id
      equals the interface's attachment id, two absent ids counting as equal. */
  function AttachmentOf(task: Task, nif: NetworkInterface): (r: Option<Attachment>)
    ensures task.attachments.None? ==> r.None?
    ensures task.attachments.Some? ==> (r.None? <==> forall a :: a in task.attachments.value ==> a.id != nif.attachmentId)
    ensures r.Some? ==> r.value in task.attachments.value && r.value.id == nif.attachmentId
    // `find` stops at the first attachment with that id.
    ensures task.attachments.Some? ==>
              forall i :: 0 <= i < |task.attachments.value| && task.attachments.value[i].id == nif.attachmentId &&
                          (forall j :: 0 <= j < i ==> task.attachments.value[j].id != nif.attachmentId)
                ==> r == Some(task.attachments.value[i])
  {
    if task.attachments.None? then None
    else
      var r := Find(task.attachments.value, (att: Attachment) => att.id == nif.attachmentId);
      assert forall a :: a in task.attachments.value ==> exists i :: 0 <= i < |task.attachments.value| && task.attachments.value[i] == a;
      r
  }

  /** The interface id a container interface resolves to, "?eni" when the
      attachment or its detail is missing. */
  function ContainerEni(task: Task, nif: NetworkInterface): (r: string)
    ensures AttachmentOf(task, nif).None? ==> r == "?eni"
    ensures AttachmentOf(task, nif).Some? ==> r == DetailValue(AttachmentOf(task, nif).value, "networkInterfaceId").GetOr("?eni")
  {
    match AttachmentOf(task, nif)
    case None => "?eni"
    case Some(att) => DetailValue(att, "networkInterfaceId").GetOr("?eni")
  }

  function MapContainer(task: Task, cont: Container): (r: ContainerModel)
    ensures r.arn == cont.containerArn.GetOr("unknown-container") && r.name == cont.name
    ensures r.status == cont.lastStatus.GetOr("UNKNOWN") && r.health == cont.healthStatus.GetOr("UNKNOWN")
    ensures cont.networkInterfaces.None? ==> r.enis == []
    ensures cont.networkInterfaces.Some? ==>
              |r.enis| == |cont.networkInterfaces.value| &&
              forall i :: 0 <= i < |r.enis| ==> r.enis[i] == ContainerEni(task, cont.networkInterfaces.value[i])
  {
    ContainerModel(
      cont.containerArn.GetOr("unknown-container"),
      cont.name,
      cont.lastStatus.GetOr("UNKNOWN"),
      cont.healthStatus.GetOr("UNKNOWN"),
      MapOpt(cont.networkInterfaces, (nif: NetworkInterface) => ContainerEni(task, nif)))
  }

  function MapTask(task: Task): (r: EcsTaskModel)
    ensures r.arn == task.taskArn.GetOr("unknown-task") && r.connectivity == task.connectivity.GetOr("unknown")
    ensures r.subnetIds == AttachmentValues(task, "subnetId", "unknown-subnet")
    ensures r.enis == AttachmentValues(task, "networkInterfaceId", "unknown-eni")
    ensures task.containers.None? ==> r.containers == []
    ensures task.containers.Some? ==>
              |r.containers| == |task.containers.value| &&
              forall i :: 0 <= i < |r.containers| ==> r.containers[i] == MapContainer(task, task.containers.value[i])
  {
    EcsTaskModel(
      task.taskArn.GetOr("unknown-task"),
      task.connectivity.GetOr("unknown"),
      AttachmentValues(task, "subnetId", "unknown-subnet"),
      AttachmentValues(task, "networkInterfaceId", "unknown-eni"),
      MapOpt(task.containers, (cont: Container) => MapContainer(task, cont)))
  }

  /** One cluster's answer as a list: `it.tasks`, nothing when absent. */
  function TasksOf(answer: Option<seq<Task>>): seq<Task> {
    answer.GetOr([])
  }

  /** The per-cluster DescribeTasks answers merged: clusters in order, an
      absent task list contributing nothing. */
  function AllTasks(perCluster: seq<Option<seq<Task>>>): (r: seq<Task>)
    // `flatMap`: the clusters' lists concatenated in cluster order.
    ensures r == Flatten(Map(perCluster, TasksOf))
    ensures forall t :: t in r <==> exists c :: 0 <= c < |perCluster| && perCluster[c].Some? && t in perCluster[c].value
    decreases |perCluster|
  {
    if perCluster == [] then []
    else
      var rest := AllTasks(perCluster[1..]);
      assert forall c :: 1 <= c < |perCluster| ==> perCluster[c] == perCluster[1..][c - 1];
      assert Map(perCluster, TasksOf) == [TasksOf(perCluster[0])] + Map(perCluster[1..], TasksOf);
      perCluster[0].GetOr([]) + rest
  }

  /** `getAllEcsTasks` after the listing calls: one model per task. */
  function GetAllEcsTasks(perCluster: seq<Option<seq<Task>>>): (r: seq<EcsTaskModel>)
    ensures |r| == |AllTasks(perCluster)|
    ensures forall i :: 0 <= i < |r| ==> r[i] == MapTask(AllTasks(perCluster)[i])
  {
    Map(AllTasks(perCluster), MapTask)
  }

  /** Every container interface that resolves to a real id names an
      interface the task lists among its own. */
  lemma ContainerEnisAmongTaskEnis(task: Task, nif: NetworkInterface)
    requires ContainerEni(task, nif) != "?eni"
    ensures ContainerEni(task, nif) in MapTask(task).enis
  {
    var att := AttachmentOf(task, nif).value;
    assert att in task.attachments.value;
    assert DetailValue(att, "networkInterfaceId").GetOr("unknown-eni") == ContainerEni(task, nif);
    assert MapTask(task).enis == AttachmentValues(task, "networkInterfaceId", "unknown-eni");
  }

  /** Two attachments in the same subnet give one subnet entry. */
  lemma SharedSubnetListedOnce(task: Task, a1: Attachment, a2: Attachment)
    requires task.attachments == Some([a1, a2])
    requires DetailValue(a1, "subnetId") == DetailValue(a2, "subnetId")
    ensures MapTask(task).subnetIds == [DetailValue(a1, "subnetId").GetOr("unknown-subnet")]
  {
    var v := DetailValue(a1, "subnetId").GetOr("unknown-subnet");
    var r := AttachmentValues(task, "subnetId", "unknown-subnet");
    assert a1 in task.attachments.value;
    DistinctSingleton(r, v);
  }
}
