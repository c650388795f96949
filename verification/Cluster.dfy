/**
 * The kinds the reconcilers work on, decoded, and the store's write rules on them. One namespace.
 * UIDs are numbers, 0 standing for the empty UID; times are whole seconds.
 */
module Cluster {
  import opened Prelude
  import opened Conditions

  type Name = string
  type Uid = nat

  const SANDBOX := "Sandbox"
  const CLAIM := "SandboxClaim"
  const POOL := "SandboxWarmPool"

  datatype OwnerRef = OwnerRef(kind: string, name: Name, uid: Uid, controller: bool)

  datatype Meta = Meta(
    uid: Uid, rv: nat, generation: nat, created: int, owners: seq<OwnerRef>,
    annotations: map<string, string>, deleting: bool)

  datatype Obj<Spec, Status> = Obj(meta: Meta, spec: Spec, status: Status)

  // ---- Pods ----

  /** A variable a claim asks for, in the named container, or in the first when the name is empty. */
  datatype EnvVar = EnvVar(container: Name, name: string, value: string)

  /** A container's variable; without a value it is taken from elsewhere. */
  datatype EnvEntry = EnvEntry(name: string, value: Option<string>)

  datatype VolumeMount = VolumeMount(name: Name, path: string, readOnly: bool)

  datatype Container = Container(
    name: Name, image: string, env: seq<EnvEntry>, ports: seq<int>, mounts: seq<VolumeMount>, privileged: bool)

  datatype VolumeSource = PvcVolume(claim: Name, readOnly: bool) | EmptyDir | Unsupported

  datatype Volume = Volume(name: Name, source: VolumeSource)

  datatype PodSpec = PodSpec(containers: seq<Container>, volumes: seq<Volume>)

  /** A volume claim template; request stands for everything but its name. */
  datatype Vct = Vct(name: Name, request: string)

  // ---- Sandboxes ----

  datatype Mode = Running | Suspended

  datatype SandboxSpec = SandboxSpec(
    pod: PodSpec, vcts: seq<Vct>, service: bool, mode: Mode, shutdown: Option<int>, deleteOnExpiry: bool)

  datatype SandboxStatus = SandboxStatus(
    conditions: seq<Condition>, podIPs: seq<string>, node: string, service: Name)

  type Sandbox = Obj<SandboxSpec, SandboxStatus>

  const NO_STATUS := SandboxStatus([], [], "", "")

  // ---- Claims, pools, templates, volume claims ----

  datatype Policy = Retain | Delete | DeleteForeground

  datatype Lifecycle = Lifecycle(shutdown: Option<int>, ttl: Option<int>, policy: Policy)

  datatype ClaimSpec = ClaimSpec(pool: Name, env: seq<EnvVar>, vcts: seq<Vct>, lifecycle: Option<Lifecycle>)

  datatype ClaimStatus = ClaimStatus(conditions: seq<Condition>, sandbox: Name, podIPs: seq<string>)

  type Claim = Obj<ClaimSpec, ClaimStatus>

  datatype PoolSpec = PoolSpec(replicas: Option<int>, template: Name)

  datatype PoolStatus = PoolStatus(replicas: int, ready: int)

  type Pool = Obj<PoolSpec, PoolStatus>

  /** Whether a template lets claims add to it, or replace in it; anything else refuses. */
  datatype Injection = Allowed | Overrides | Refused

  datatype TemplateSpec = TemplateSpec(
    pod: PodSpec, vcts: seq<Vct>, service: bool, envPolicy: Injection, vctPolicy: Injection)

  type Template = Obj<TemplateSpec, ()>

  type Pvc = Obj<string, string>

  // ---- Ownership ----

  /** Whether some owner has this kind and name; neither its UID nor the controller flag is looked at. */
  predicate OwnedBy(owners: seq<OwnerRef>, kind: string, name: Name) {
    exists i :: 0 <= i < |owners| && owners[i].kind == kind && owners[i].name == name
  }

  /** The UID of the first controller reference, 0 without one. */
  function ControllerUid(owners: seq<OwnerRef>): (uid: Uid)
    ensures uid == 0 || exists i :: 0 <= i < |owners| && owners[i].controller && owners[i].uid == uid
  {
    if owners == [] then 0
    else if owners[0].controller then owners[0].uid
    else ControllerUid(owners[1..])
  }

  /** It is the first one's, where there is one. */
  lemma {:induction false} ControllerIsFirst(owners: seq<OwnerRef>, i: nat)
    ensures i < |owners| && owners[i].controller && (forall j :: 0 <= j < i ==> !owners[j].controller) ==>
      ControllerUid(owners) == owners[i].uid
    ensures (forall j :: 0 <= j < |owners| ==> !owners[j].controller) ==> ControllerUid(owners) == 0
  {
    if owners != [] && !owners[0].controller {
      ControllerIsFirst(owners[1..], if i == 0 then 0 else i - 1);
    }
  }

  function ControllerRef(kind: string, name: Name, uid: Uid): OwnerRef {
    OwnerRef(kind, name, uid, true)
  }

  predicate IsReady(sb: Sandbox) {
    Holds(sb.status.conditions, READY)
  }

  // ---- The store's write rules ----

  function Created<S, T>(uid: Uid, rv: nat, now: int, owners: seq<OwnerRef>, spec: S, status: T): Obj<S, T> {
    Obj(Meta(uid, rv, 1, now, owners, map[], false), spec, status)
  }

  /** A full write keeps UID, creation time and status; the generation counts spec changes. */
  function Written<S(==), T>(was: Obj<S, T>, incoming: Obj<S, T>, rv: nat): Obj<S, T> {
    Obj(incoming.meta.(uid := was.meta.uid, created := was.meta.created, rv := rv,
                       generation := was.meta.generation + if was.spec == incoming.spec then 0 else 1),
        incoming.spec, was.status)
  }

  /** A status write replaces the status and nothing else. */
  function StatusWritten<S, T>(was: Obj<S, T>, status: T, rv: nat): Obj<S, T> {
    was.(meta := was.meta.(rv := rv), status := status)
  }

  // ---- Lifecycle ----

  /** Whether a claim is past its shutdown time, or its time to live after the Finished transition. */
  predicate Expired(claim: Claim, now: int) {
    claim.spec.lifecycle.Some? &&
    var lc := claim.spec.lifecycle.value;
    || (lc.shutdown.Some? && lc.shutdown.value <= now)
    || (lc.ttl.Some? && Holds(claim.status.conditions, FINISHED)
        && Find(claim.status.conditions, FINISHED).value.since + lc.ttl.value <= now)
  }

  /** A claim's own conditions with Ready set to False. */
  function NotReady(claim: Claim, reason: string, message: string, now: int): ClaimStatus {
    claim.status.(conditions :=
      Set(claim.status.conditions, Raw(READY, FALSE, reason, message, claim.meta.generation, now)))
  }
}
