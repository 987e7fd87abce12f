/**
 The stores both reconcilers work on: the Host and its Instance in Inventory, the Tinkerbell workflow
 object of the host, the credentials issued for it and the child resources attached to it.
 */
module Inventory {
  import opened Wrappers
  import opened StatusDetail

  datatype Indicator = NoIndication | Error | InProgress | Settled

  datatype Status = Status(text: string, detail: Detail, indicator: Indicator)

  const NOT_SET := Status("", NoDetail, NoIndication)
  const UNKNOWN := Status("Unknown", NoDetail, NoIndication)
  const PROVISIONING := Status("Provisioning In Progress", NoDetail, InProgress)
  const PROVISIONING_FAILED := Status("Provisioning Failed", NoDetail, Error)
  const PROVISIONED := Status("Provisioned", NoDetail, Settled)
  const REBOOTING := Status("Rebooting", NoDetail, InProgress)
  const INVALIDATED := Status("Invalidated", NoDetail, Settled)
  const DELETING := Status("Deleting", NoDetail, InProgress)
  const ONBOARDED := Status("Onboarded", NoDetail, Settled)

  function WithDetail(s: Status, d: Detail): Status {
    s.(detail := d)
  }

  datatype HostState = HostUnspecified | HostRegistered | HostOnboarded | HostUntrusted | HostDeleted

  datatype InstanceState = InstUnspecified | InstRunning | InstUntrusted | InstDeleted

  datatype OsType = OsUnspecified | Mutable | Immutable

  /** The OS metadata string: absent, not parseable, or saying whether the node is standalone. */
  datatype Metadata = NoMetadata | Malformed | Parsed(standalone: bool)

  datatype Os = NoOs | Os(infraProvided: bool, osType: OsType, metadata: Metadata)

  type ResourceId = nat

  datatype Instance = Instance(
    id: ResourceId, desired: InstanceState, current: InstanceState, os: Os,
    provisioning: Status, running: Status, update: Status, attestation: Status)

  /** The children eager-loaded with a host, and the addresses of each NIC. */
  datatype Parts = Parts(
    nics: seq<ResourceId>, disks: seq<ResourceId>, usbs: seq<ResourceId>, gpus: seq<ResourceId>,
    addresses: map<ResourceId, seq<ResourceId>>)

  datatype Host = Host(
    hasProvider: bool, desired: HostState, current: HostState,
    status: Status, onboarding: Status, registration: Status, parts: Parts)

  datatype World = World(
    host: Host, instance: Option<Instance>, workflow: Option<Workflow>,
    credentials: bool, live: set<ResourceId>)

  /** How a call to Inventory, Kubernetes or Keycloak ends. */
  datatype Err =
    | NoErr | NotGrpc | NotFound | AlreadyExists | Unauthenticated | PermissionDenied
    | OperationInProgress | Aborted | Other

  datatype Directive = AckIt | Retry | Fail

  /** What a reconciler answers for an inventory error; nothing when there is none. */
  function HandleInventoryError(e: Err): (d: Option<Directive>)
    ensures d == None <==> e == NoErr
    ensures d == Some(AckIt) <==> e in {NotGrpc, NotFound, AlreadyExists, Unauthenticated, PermissionDenied}
    ensures d != Some(Fail)
  {
    match e
    case NoErr => None
    case NotGrpc | NotFound | AlreadyExists | Unauthenticated | PermissionDenied => Some(AckIt)
    case _ => Some(Retry)
  }

  function HandleProvisioningError(e: Err): (d: Option<Directive>)
    ensures d == None <==> e == NoErr
    ensures d == Some(Fail) <==> e == Aborted
    ensures d == Some(AckIt) <==> e == NotGrpc
  {
    match e
    case NoErr => None
    case NotGrpc => Some(AckIt)
    case Aborted => Some(Fail)
    case _ => Some(Retry)
  }

  function IsStandalone(os: Os): Option<bool> {
    if os.NoOs? || os.osType.Mutable? || os.metadata.NoMetadata? then Some(false)
    else if os.metadata.Malformed? then None
    else Some(os.metadata.standalone)
  }

  /** Whether device information can be derived from the instance. */
  predicate Convertible(os: Os) {
    os.Os? && !os.osType.OsUnspecified? && IsStandalone(os).Some?
  }

  // Field-masked writes; a write to an instance that is gone changes nothing.

  predicate Present(w: World, id: ResourceId) {
    w.instance.Some? && w.instance.value.id == id
  }

  function WriteProvisioning(w: World, id: ResourceId, current: InstanceState, p: Status): World {
    if Present(w, id) then w.(instance := Some(w.instance.value.(current := current, provisioning := p))) else w
  }

  function WriteStatuses(w: World, i: Instance): World {
    if Present(w, i.id) then
      w.(instance := Some(w.instance.value.(
        running := i.running, provisioning := i.provisioning, update := i.update, attestation := i.attestation)))
    else w
  }

  function WriteState(w: World, id: ResourceId, current: InstanceState): World {
    if Present(w, id) then w.(instance := Some(w.instance.value.(current := current))) else w
  }
}
