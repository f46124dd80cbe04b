/** The parts of the Kubernetes objects that the plugin reads and writes. */
module Kube {

  datatype Option<+T> = None | Some(value: T)

  datatype Error =
    | FormatError
    | NoContainers
    | CannotAlign
    | NotFound
    | NumberMismatch
    | NoPendingPod
    | BadRequestCount
    | InvalidUUID
    | NoSuchDevice
    | NoDeviceNode
    | DriverError
    | MarkError
    | ConfError
    | PatchError
    | ListError
    | InvalidPrefix

  datatype Result<+T> = Ok(value: T) | Err(error: Error)

  /** `limits` maps a resource name to the value of its quantity. */
  datatype Container = Container(name: string, limits: map<string, int>, restartPolicy: Option<string>)

  datatype ContainerStatus = ContainerStatus(name: string, terminated: bool)

  datatype Phase = Pending | Running | Succeeded | Failed | Unknown

  datatype PodSpec = PodSpec(initContainers: seq<Container>, containers: seq<Container>)

  datatype Pod = Pod(
    uid: string,
    spec: PodSpec,
    phase: Phase,
    initStatuses: seq<ContainerStatus>,
    annotations: map<string, string>)

  const RESTART_ALWAYS := "Always"
  const BIND_PHASE := "hami.io/bind-phase"
  const ALLOCATING := "allocating"
  const FAILED := "failed"
  const SUCCESS := "success"

  /** Init containers first, then app containers: the order device annotations follow. */
  function AllPodContainers(pod: Pod): seq<Container> {
    pod.spec.initContainers + pod.spec.containers
  }

  lemma ContainersInOrder(pod: Pod, i: nat)
    ensures i < |AllPodContainers(pod)| <==> i < |pod.spec.initContainers| + |pod.spec.containers|
    ensures i < |pod.spec.initContainers| ==> AllPodContainers(pod)[i] == pod.spec.initContainers[i]
    ensures |pod.spec.initContainers| <= i < |AllPodContainers(pod)| ==>
              AllPodContainers(pod)[i] == pod.spec.containers[i - |pod.spec.initContainers|]
  {
  }

  predicate Terminal(phase: Phase) {
    phase == Succeeded || phase == Failed
  }
}
