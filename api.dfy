/** The two resource kinds of the operator, `Register` (one bare-metal node)
    and `Cluster`, with the fields the controllers read and write, and the
    label, phase and finalizer vocabulary they share.  The fields follow the
    controllers' use of them rather than the declared Go structs, which lag
    behind (the node spec there lacks the settings a cluster copies onto it,
    and the cluster status lacks its member list). */
module Api {
  import opened Common

  type Labels = map<string, string>

  /** The part of the object metadata the controllers use.  `deleting` stands
      for a non-zero deletion timestamp; `owner` is the cluster recorded as
      owner and controller of a node. */
  datatype ObjectMeta = ObjectMeta(
    name: string,
    namespace: string,
    labels: Labels,
    finalizers: seq<string>,
    deleting: bool,
    owner: Option<string>)

  datatype Wifi = Wifi(name: string, passphrase: string)

  datatype RegisterSpec = RegisterSpec(
    macAddress: string,
    token: string,
    nameservers: seq<string>,
    interface: string,
    address: string,
    netmask: string,
    gateway: string,
    pxeIsoURL: string,
    sshAuthorizedKeys: seq<string>,
    modules: seq<string>,
    sysctls: map<string, string>,
    ntpServers: seq<string>,
    dnsNameservers: seq<string>,
    wifi: seq<Wifi>,
    password: string,
    environment: map<string, string>,
    disk: string)

  /** `status` is the phase of the node state machine. */
  datatype RegisterStatus = RegisterStatus(
    message: string,
    status: string,
    uuid: string,
    hardwarePublished: bool,
    nodeReady: bool)

  /** The zero value of a node status. */
  const ZeroRegisterStatus := RegisterStatus("", "", "", false, false)

  datatype Register = Register(meta: ObjectMeta, spec: RegisterSpec, status: RegisterStatus)

  datatype ClusterSpec = ClusterSpec(
    token: string,
    nameservers: seq<string>,
    netmask: string,
    gateway: string,
    pxeIsoURL: string,
    sshAuthorizedKeys: seq<string>,
    modules: seq<string>,
    sysctls: map<string, string>,
    ntpServers: seq<string>,
    dnsNameservers: seq<string>,
    wifi: seq<Wifi>,
    password: string,
    environment: map<string, string>,
    disk: string)

  /** `status` is the phase of the cluster state machine. */
  datatype ClusterStatus = ClusterStatus(members: seq<string>, status: string, message: string)

  datatype Cluster = Cluster(meta: ObjectMeta, spec: ClusterSpec, status: ClusterStatus)

  // Label keys.
  const ClusterNameLabel := "clusterName"
  const UUIDLabel := "uuid"
  const LeaderLabel := "leader"
  const ReadyLabel := "ready"
  const NodeReadyLabel := "nodeReady"

  // Cluster phases.  PatchNodes writes NodeSubmittedWritten, the dispatch tests Nodesubmitted.
  const ElectLeaderPhase := "ElectLeader"
  const PatchNodesPhase := "PatchNodes"
  const NodesubmittedPhase := "Nodesubmitted"
  const NodeSubmittedWritten := "NodeSubmitted"

  // Node phases.
  const UIDGenerated := "uidgenerated"
  const HWPushed := "hardwarepushed"

  const RegisterFinalizer := "register.harvesterci.io"

  /** Port of the config endpoint that installing nodes call back. */
  const DefaultConfigURLPort := "30880"

  predicate HasLabel(labels: Labels, key: string, value: string) {
    key in labels && labels[key] == value
  }

  /** The API server drops an object that is being deleted once its last finalizer is gone. */
  predicate Released(meta: ObjectMeta) {
    meta.deleting && meta.finalizers == []
  }
}
