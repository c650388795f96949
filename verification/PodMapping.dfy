/** From a pod to the container that runs it: the ports it publishes and the volumes it mounts. */
module PodMapping {
  import opened Prelude
  import opened Cluster

  function VolumeName(ns: Name, claim: Name): string {
    "las-" + ns + "-" + claim
  }

  /** Within one namespace a volume's name gives its claim back. */
  lemma VolumeNameInjective(ns: Name, a: Name, b: Name)
    requires VolumeName(ns, a) == VolumeName(ns, b)
    ensures a == b
  {
    var head := "las-" + ns + "-";
    assert VolumeName(ns, a)[|head|..] == a;
    assert VolumeName(ns, b)[|head|..] == b;
  }

  datatype Mount = NamedMount(volume: string, path: string, readOnly: bool) | TmpfsMount(path: string, readOnly: bool)

  datatype ContainerSpec = ContainerSpec(image: string, serverPort: int, ports: seq<int>, mounts: seq<Mount>)

  // ---- Ports ----

  ghost predicate StrictlySorted(s: seq<int>) {
    Ordered(Less, s)
  }

  predicate Less(a: int, b: int) { a < b }

  /** The port the runtime is asked on: the first declared one, else the default. */
  function ServerPort(pod: PodSpec, default: int): int {
    if pod.containers == [] then default else FirstPositive(pod.containers[0].ports, default)
  }

  function FirstPositive(ports: seq<int>, default: int): int {
    if ports == [] then default
    else if ports[0] > 0 then ports[0]
    else FirstPositive(ports[1..], default)
  }

  // ---- Volumes ----

  /** Volumes by name; of two with one name the later counts. */
  function ByName(volumes: seq<Volume>): map<Name, VolumeSource> {
    if volumes == [] then map[]
    else ByName(volumes[..|volumes| - 1])[volumes[|volumes| - 1].name := volumes[|volumes| - 1].source]
  }

  lemma {:induction false} ByNameIsListed(volumes: seq<Volume>, name: Name)
    ensures name in ByName(volumes) ==> Volume(name, ByName(volumes)[name]) in volumes
  {
    if volumes != [] {
      ByNameIsListed(volumes[..|volumes| - 1], name);
    }
  }

  function MountOf(ns: Name, byName: map<Name, VolumeSource>, vm: VolumeMount): seq<Mount> {
    if vm.name !in byName then []
    else match byName[vm.name]
      case PvcVolume(claim, readOnly) =>
        if claim == "" then [] else [NamedMount(VolumeName(ns, claim), vm.path, vm.readOnly || readOnly)]
      case EmptyDir => [TmpfsMount(vm.path, vm.readOnly)]
      case Unsupported => []
  }

  function Mounts(ns: Name, byName: map<Name, VolumeSource>, mounts: seq<VolumeMount>): seq<Mount> {
    if mounts == [] then []
    else Mounts(ns, byName, mounts[..|mounts| - 1]) + MountOf(ns, byName, mounts[|mounts| - 1])
  }

  /** Every named volume a container mounts backs some claim that the pod names. */
  lemma {:induction false} MountsAreClaims(ns: Name, volumes: seq<Volume>, mounts: seq<VolumeMount>, m: Mount)
    requires m in Mounts(ns, ByName(volumes), mounts) && m.NamedMount?
    ensures exists v :: v in volumes && v.source.PvcVolume? && v.source.claim != "" && m.volume == VolumeName(ns, v.source.claim)
  {
    var byName := ByName(volumes);
    var last := mounts[|mounts| - 1];
    if m in Mounts(ns, byName, mounts[..|mounts| - 1]) {
      MountsAreClaims(ns, volumes, mounts[..|mounts| - 1], m);
    } else {
      ByNameIsListed(volumes, last.name);
      assert m in MountOf(ns, byName, last);
      assert Volume(last.name, byName[last.name]) in volumes;
    }
  }

  /**
   * The ports are the declared positive ones and the server port, strictly sorted; the mounts are
   * those of the volumes that the pod names last. Only a privileged or an empty pod is refused.
   */
  method MapPodSpec(ns: Name, pod: PodSpec, serverPort: int, default: int) returns (r: Option<ContainerSpec>)
    ensures r.None? <==> pod.containers == [] || pod.containers[0].privileged
    ensures r.Some? ==>
      var spec, c, port := r.value, pod.containers[0], if serverPort == 0 then default else serverPort;
      && spec.image == c.image && spec.serverPort == port
      && StrictlySorted(spec.ports)
      && (forall p :: p in spec.ports <==> p == port || (p > 0 && p in c.ports))
      && spec.mounts == Mounts(ns, ByName(pod.volumes), c.mounts)
  {
    if |pod.containers| == 0 {
      return None;
    }
    var c := pod.containers[0];
    var port := if serverPort == 0 then default else serverPort;
    var ports := SortedPorts(c.ports, port);
    var byName: map<Name, VolumeSource> := map[];
    for i := 0 to |pod.volumes|
      invariant byName == ByName(pod.volumes[..i])
    {
      assert pod.volumes[..i + 1][..i] == pod.volumes[..i];
      byName := byName[pod.volumes[i].name := pod.volumes[i].source];
    }
    assert pod.volumes[..|pod.volumes|] == pod.volumes;
    var mounts: seq<Mount> := [];
    for i := 0 to |c.mounts|
      invariant mounts == Mounts(ns, byName, c.mounts[..i])
    {
      assert c.mounts[..i + 1][..i] == c.mounts[..i];
      mounts := mounts + MountOf(ns, byName, c.mounts[i]);
    }
    assert c.mounts[..|c.mounts|] == c.mounts;
    if c.privileged {
      return None;
    }
    return Some(ContainerSpec(c.image, port, ports, mounts));
  }

  /** Collects the ports in a set, and sorts what is in it. */
  method SortedPorts(declared: seq<int>, port: int) returns (ports: seq<int>)
    ensures StrictlySorted(ports)
    ensures forall p :: p in ports <==> p == port || (p > 0 && p in declared)
  {
    var portSet := {port};
    for i := 0 to |declared|
      invariant forall p :: p in portSet <==> p == port || (p > 0 && p in declared[..i])
    {
      if declared[i] > 0 {
        portSet := portSet + {declared[i]};
      }
    }
    assert declared[..|declared|] == declared;
    ports := [];
    var rest := portSet;
    while rest != {}
      invariant rest <= portSet && StrictlySorted(ports)
      invariant forall p :: p in ports <==> p in portSet - rest
      decreases |rest|
    {
      var p :| p in rest;
      InsertOrdered(Less, ports, p);
      InsertMembers(Less, ports, p);
      ports := Insert(Less, ports, p);
      rest := rest - {p};
    }
  }

  // ---- Injection ----

  /** The first volume of the name becomes the claim's; without one it is appended. */
  function Injected(volumes: seq<Volume>, name: Name, claim: Name): seq<Volume> {
    if volumes == [] then [Volume(name, PvcVolume(claim, false))]
    else if volumes[0].name == name then [Volume(name, PvcVolume(claim, false))] + volumes[1..]
    else [volumes[0]] + Injected(volumes[1..], name, claim)
  }

  lemma {:induction false} InjectedAt(volumes: seq<Volume>, i: nat, name: Name, claim: Name)
    requires i <= |volumes| && forall j :: 0 <= j < i ==> volumes[j].name != name
    ensures i < |volumes| && volumes[i].name == name ==>
      Injected(volumes, name, claim) == volumes[i := Volume(name, PvcVolume(claim, false))]
    ensures i == |volumes| ==> Injected(volumes, name, claim) == volumes + [Volume(name, PvcVolume(claim, false))]
  {
    if i > 0 {
      InjectedAt(volumes[1..], i - 1, name, claim);
    }
  }

  method InjectPodVolume(pod: PodSpec, name: Name, claim: Name) returns (r: PodSpec)
    ensures r == pod.(volumes := Injected(pod.volumes, name, claim))
  {
    var i := 0;
    while i < |pod.volumes|
      invariant 0 <= i <= |pod.volumes|
      invariant forall j :: 0 <= j < i ==> pod.volumes[j].name != name
    {
      if pod.volumes[i].name == name {
        InjectedAt(pod.volumes, i, name, claim);
        return pod.(volumes := pod.volumes[i := Volume(name, PvcVolume(claim, false))]);
      }
      i := i + 1;
    }
    InjectedAt(pod.volumes, i, name, claim);
    r := pod.(volumes := pod.volumes + [Volume(name, PvcVolume(claim, false))]);
  }

  /** How often the name is used. */
  function Uses(volumes: seq<Volume>, name: Name): nat {
    if volumes == [] then 0 else (if volumes[0].name == name then 1 else 0) + Uses(volumes[1..], name)
  }

  /** What the container mounts under the name. */
  function Chosen(volumes: seq<Volume>, name: Name): Option<VolumeSource> {
    if volumes == [] then None
    else if Chosen(volumes[1..], name).Some? then Chosen(volumes[1..], name)
    else if volumes[0].name == name then Some(volumes[0].source)
    else None
  }

  lemma {:induction false} ChosenAppend(volumes: seq<Volume>, v: Volume, name: Name)
    ensures Chosen(volumes + [v], name) == if v.name == name then Some(v.source) else Chosen(volumes, name)
  {
    if volumes != [] {
      ChosenAppend(volumes[1..], v, name);
      assert (volumes + [v])[1..] == volumes[1..] + [v];
    } else {
      assert [] + [v] == [v] && [v][1..] == [];
    }
  }

  lemma {:induction false} ByNameChooses(volumes: seq<Volume>, name: Name)
    ensures Chosen(volumes, name) == if name in ByName(volumes) then Some(ByName(volumes)[name]) else None
  {
    if volumes != [] {
      var init, v := volumes[..|volumes| - 1], volumes[|volumes| - 1];
      ByNameChooses(init, name);
      ChosenAppend(init, v, name);
      assert volumes == init + [v];
    }
  }

  lemma {:induction false} UsesChosen(volumes: seq<Volume>, name: Name)
    ensures Uses(volumes, name) == 0 <==> Chosen(volumes, name).None?
  {
    if volumes != [] {
      UsesChosen(volumes[1..], name);
    }
  }

  /**
   * An injected volume is the one mounted under its name exactly if the name was used at most once,
   * or the last volume of that name was the claim's already: the injection edits the first volume of
   * the name, the mapping takes the last.
   */
  lemma {:induction false} InjectedIsMounted(volumes: seq<Volume>, name: Name, claim: Name)
    ensures (name in ByName(Injected(volumes, name, claim)) && ByName(Injected(volumes, name, claim))[name] == PvcVolume(claim, false))
       <==> (Uses(volumes, name) <= 1 || Chosen(volumes, name) == Some(PvcVolume(claim, false)))
  {
    ByNameChooses(Injected(volumes, name, claim), name);
    InjectedIsChosen(volumes, name, claim);
  }

  lemma {:induction false} InjectedIsChosen(volumes: seq<Volume>, name: Name, claim: Name)
    ensures (Chosen(Injected(volumes, name, claim), name) == Some(PvcVolume(claim, false)))
       <==> (Uses(volumes, name) <= 1 || Chosen(volumes, name) == Some(PvcVolume(claim, false)))
    ensures Chosen(Injected(volumes, name, claim), name).Some?
  {
    if volumes == [] {
    } else if volumes[0].name == name {
      UsesChosen(volumes[1..], name);
      assert Injected(volumes, name, claim)[1..] == volumes[1..];
    } else {
      InjectedIsChosen(volumes[1..], name, claim);
      assert Injected(volumes, name, claim)[1..] == Injected(volumes[1..], name, claim);
      UsesChosen(volumes[1..], name);
    }
  }

  // ---- What mapping finds, told by the pod ----

  /** The runtime's port is the first container's first declared one; a port that is not positive declares nothing. */
  lemma ServerPortIsFirst(pod: PodSpec, default: int, i: nat)
    ensures pod.containers == [] ==> ServerPort(pod, default) == default
    ensures pod.containers != [] ==>
      var ports := pod.containers[0].ports;
      && (i < |ports| && ports[i] > 0 && (forall j :: 0 <= j < i ==> ports[j] <= 0) ==> ServerPort(pod, default) == ports[i])
      && ((forall j :: 0 <= j < |ports| ==> ports[j] <= 0) ==> ServerPort(pod, default) == default)
  {
    if pod.containers != [] {
      FirstPositiveIsFirst(pod.containers[0].ports, default, i);
    }
  }

  lemma {:induction false} FirstPositiveIsFirst(ports: seq<int>, default: int, i: nat)
    ensures i < |ports| && ports[i] > 0 && (forall j :: 0 <= j < i ==> ports[j] <= 0) ==> FirstPositive(ports, default) == ports[i]
    ensures (forall j :: 0 <= j < |ports| ==> ports[j] <= 0) ==> FirstPositive(ports, default) == default
  {
    if ports != [] && ports[0] <= 0 {
      FirstPositiveIsFirst(ports[1..], default, if i == 0 then 0 else i - 1);
    }
  }

  /** What a mount in the pod becomes, by the last volume of its name: at most one mount of the container. */
  ghost predicate Becomes(ns: Name, volumes: seq<Volume>, vm: VolumeMount, m: Mount) {
    match Chosen(volumes, vm.name)
    case None => false
    case Some(EmptyDir) => m == TmpfsMount(vm.path, vm.readOnly)
    case Some(Unsupported) => false
    case Some(PvcVolume(claim, readOnly)) =>
      claim != "" && m == NamedMount("las-" + ns + "-" + claim, vm.path, vm.readOnly || readOnly)
  }

  lemma MountBecomes(ns: Name, volumes: seq<Volume>, vm: VolumeMount, m: Mount)
    ensures |MountOf(ns, ByName(volumes), vm)| <= 1
    ensures m in MountOf(ns, ByName(volumes), vm) <==> Becomes(ns, volumes, vm, m)
  {
    ByNameChooses(volumes, vm.name);
  }

  /** The container's mounts are what the pod's become, each where and how the pod says. */
  lemma {:induction false} MountsExactly(ns: Name, volumes: seq<Volume>, mounts: seq<VolumeMount>, m: Mount)
    ensures m in Mounts(ns, ByName(volumes), mounts) <==> exists vm :: vm in mounts && Becomes(ns, volumes, vm, m)
    ensures |Mounts(ns, ByName(volumes), mounts)| <= |mounts|
  {
    if mounts != [] {
      var n := |mounts| - 1;
      MountsExactly(ns, volumes, mounts[..n], m);
      MountBecomes(ns, volumes, mounts[n], m);
      assert mounts == mounts[..n] + [mounts[n]];
    }
  }

  /** They come in the pod's order. */
  lemma {:induction false} MountsInOrder(ns: Name, byName: map<Name, VolumeSource>, a: seq<VolumeMount>, b: seq<VolumeMount>)
    ensures Mounts(ns, byName, a + b) == Mounts(ns, byName, a) + Mounts(ns, byName, b)
  {
    if b == [] {
      assert a + b == a;
    } else {
      var n := |b| - 1;
      MountsInOrder(ns, byName, a, b[..n]);
      assert (a + b)[..|a| + n] == a + b[..n];
    }
  }

  /** Injection changes the first volume of the name or adds one, and no other volume. */
  lemma {:induction false} InjectionTouchesOne(volumes: seq<Volume>, name: Name, claim: Name, other: Name)
    requires other != name
    ensures Chosen(Injected(volumes, name, claim), other) == Chosen(volumes, other)
    ensures Uses(Injected(volumes, name, claim), other) == Uses(volumes, other)
    ensures |Injected(volumes, name, claim)| == |volumes| + if Chosen(volumes, name).None? then 1 else 0
  {
    if volumes != [] {
      if volumes[0].name == name {
        assert Injected(volumes, name, claim)[1..] == volumes[1..];
      } else {
        InjectionTouchesOne(volumes[1..], name, claim, other);
        assert Injected(volumes, name, claim)[1..] == Injected(volumes[1..], name, claim);
      }
    }
  }
}
