/**
 * The part of the Kubernetes core/v1 Pod object that the pod deleter reads,
 * and the shape of the two cluster calls it makes (list and delete).
 */
module Pods {
  import opened Wrappers

  /** Durations and timestamps are whole seconds. */
  const Second: int := 1
  const Minute: int := 60 * Second
  const Hour: int := 60 * Minute

  /** A pod phase is a free string in the API; these are the named values. */
  const PodPending: string := "Pending"
  const PodRunning: string := "Running"
  const PodSucceeded: string := "Succeeded"
  const PodFailed: string := "Failed"
  const PodUnknown: string := "Unknown"

  /**
   * The state of one container. The API offers three optional parts, and
   * nothing stops more than one of them from being set. A waiting or
   * terminated part carries its reason string.
   */
  datatype ContainerStatus = ContainerStatus(
    waiting: Option<string>,
    running: bool,
    terminated: Option<string>)

  const EmptyStatus := ContainerStatus(None, false, None)

  datatype Pod = Pod(
    namespace: string,
    name: string,
    creationTimestamp: int,
    phase: string,
    containerStatuses: seq<ContainerStatus>)

  /** The identity the delete call receives. */
  datatype PodId = PodId(namespace: string, name: string)

  function Id(p: Pod): PodId {
    PodId(p.namespace, p.name)
  }

  /** What listing pods returns: the pods in the order the cluster gives, or an error. */
  datatype ListResult = Listed(pods: seq<Pod>) | ListError(cause: string)

  /**
   * What one delete call returns: success, the benign "not found" error, or
   * any other error.
   */
  datatype DeleteOutcome = Deleted | NotFound | DeleteError(cause: string)

  predicate Fatal(o: DeleteOutcome) {
    o.DeleteError?
  }
}
