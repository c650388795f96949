/** What a sandbox pass comes to, told by the clock, the container and the driver alone. */
module SandboxPass {
  import opened Prelude
  import opened Conditions
  import opened Cluster
  import opened Cascade
  import opened PodMapping
  import opened SandboxConditions
  import opened Reconcilers

  /** The sandbox has a shutdown time, and it has come. */
  ghost predicate Ended(sb: Sandbox, now: int) {
    exists end :: sb.spec.shutdown == Some(end) && now >= end
  }

  lemma EndedExactly(sb: Sandbox, now: int)
    ensures PastEnd(sb, now) <==> Ended(sb, now)
  {
  }

  ghost predicate Says(sb: Sandbox, kind: string, status: string, reason: string) {
    exists c :: Find(sb.status.conditions, kind) == Some(c) && c.status == status && c.reason == reason
  }

  /**
   * From its shutdown time on a pass ends the sandbox: it goes, with its own, or is kept, says so and
   * has no container, address or node any more.
   */
  lemma EndsAtItsTime(w: World, w2: World, ns: Name, n: Name, defaultPort: int, d: Driver, o: Option<Outcome>, now: int, p: Place)
    requires n in w.sandboxes && Passed(w, w2, ns, n, defaultPort, d, o, now, p) && Ended(w.sandboxes[n], now)
    ensures w.sandboxes[n].spec.deleteOnExpiry ==> w2 == Deleted(w, ns, ASandbox, n)
    ensures !w.sandboxes[n].spec.deleteOnExpiry ==>
      && n in w2.sandboxes && Says(w2.sandboxes[n], "Ready", "False", "SandboxExpired")
      && w2.sandboxes[n].status.podIPs == [] && w2.sandboxes[n].status.node == ""
      && (!d.inspectFails ==> n !in w2.containers) && w2.pvcs == w.pvcs && w2.volumes == w.volumes
  {
  }

  /** Before that it is kept, and a running one keeps its container as it is. */
  lemma KeptBeforeItsTime(w: World, w2: World, ns: Name, n: Name, defaultPort: int, d: Driver, o: Option<Outcome>, now: int, p: Place)
    requires n in w.sandboxes && Passed(w, w2, ns, n, defaultPort, d, o, now, p) && !Ended(w.sandboxes[n], now)
    ensures n in w2.sandboxes && w2.sandboxes[n].spec == w.sandboxes[n].spec && w2.sandboxes[n].meta.uid == w.sandboxes[n].meta.uid
    ensures w.sandboxes[n].spec.mode == Running ==>
      && (forall m :: m in w.containers ==> m in w2.containers && w2.containers[m] == w.containers[m])
      && (forall q :: q in w.pvcs ==> q in w2.pvcs && w2.pvcs[q] == w.pvcs[q]) && w.volumes <= w2.volumes
    ensures w.sandboxes[n].spec.mode == Suspended && !d.inspectFails ==>
      && n !in w2.containers && Says(w2.sandboxes[n], "Suspended", "True", "PodTerminated")
      && Says(w2.sandboxes[n], "Ready", "False", "SandboxSuspended")
    ensures w.sandboxes[n].spec.mode == Suspended && d.inspectFails ==>
      w2.containers == w.containers && Says(w2.sandboxes[n], "Suspended", "False", "PodNotTerminated")
  {
    EndedExactly(w.sandboxes[n], now);
  }

  /** Nothing is in the way of running the sandbox: the driver works, and the claims its pod names are there. */
  ghost predicate Unhindered(w2: World, sb: Sandbox, n: Name, d: Driver) {
    && d.imageOk && !d.inspectFails && !d.createFails && d.volumeFails == {}
    && sb.spec.pod.containers != [] && !sb.spec.pod.containers[0].privileged
    && forall v :: v in WithClaims(sb.spec.pod, sb.spec.vcts, n).volumes && v.source.PvcVolume? ==> v.source.claim in w2.pvcs
  }

  lemma UnhinderedObserves(w: World, w2: World, ns: Name, n: Name, defaultPort: int, d: Driver, o: Option<Outcome>, now: int, p: Place)
    requires n in w.sandboxes && Passed(w, w2, ns, n, defaultPort, d, o, now, p)
    requires !Ended(w.sandboxes[n], now) && w.sandboxes[n].spec.mode == Running && Unhindered(w2, w.sandboxes[n], n, d)
    ensures o.Some? && Observed(w2.containers, n, w.sandboxes[n], defaultPort, d, o.value)
    ensures n in w2.sandboxes && Reported(w.sandboxes[n], w2.sandboxes[n], o, now, p)
  {
    EndedExactly(w.sandboxes[n], now);
    SameContainers(w.sandboxes[n].spec.pod, w.sandboxes[n].spec.vcts, n);
  }

  /**
   * A sandbox that runs unhindered has a container after the pass, and shows what it is: finished, for
   * the reason its exit code gives, if it exited; ready exactly if it runs with an address and answers on
   * the server port's host port, and then with address and node; and else that it is not ready.
   */
  lemma ShowsItsContainer(w: World, w2: World, ns: Name, n: Name, defaultPort: int, d: Driver, o: Option<Outcome>, now: int, p: Place)
    requires n in w.sandboxes && Passed(w, w2, ns, n, defaultPort, d, o, now, p)
    requires !Ended(w.sandboxes[n], now) && w.sandboxes[n].spec.mode == Running && Unhindered(w2, w.sandboxes[n], n, d)
    ensures n in w2.containers && n in w2.sandboxes
    ensures var c, sb := w2.containers[n], w2.sandboxes[n];
      && (c.state == "exited" || c.state == "dead" ==>
            var reason := if c.exitCode == 0 then "PodSucceeded" else "PodFailed";
            && Says(sb, "Finished", "True", reason) && Says(sb, "Ready", "False", reason) && sb.status.podIPs == [] && sb.status.node == "")
      && (c.state == "running" ==>
            && Find(sb.status.conditions, "Finished").None?
            && Says(sb, "Ready", if Answers(w2.containers, n, ServerPort(sb.spec.pod, defaultPort), d) then "True" else "False",
                    if Answers(w2.containers, n, ServerPort(sb.spec.pod, defaultPort), d) then "DependenciesReady" else "DependenciesNotReady")
            && sb.status.podIPs == (if p.ip != "" then [p.ip] else []) && sb.status.node == p.node)
      && (c.state !in {"exited", "dead", "running"} ==>
            && Says(sb, "Ready", "False", "DependenciesNotReady") && sb.status.podIPs == []
            && Find(sb.status.conditions, "Finished") == Find(w.sandboxes[n].status.conditions, "Finished"))
      && Find(sb.status.conditions, "Suspended").None?
      && (sb.status.service == if sb.spec.service then p.name else "")
  {
    UnhinderedObserves(w, w2, ns, n, defaultPort, d, o, now, p);
    ShowsOutcome(w.sandboxes[n], w2.sandboxes[n], o.value, now, p);
  }

  lemma ShowsOutcome(was: Sandbox, sb: Sandbox, o: Outcome, now: int, p: Place)
    requires Reported(was, sb, Some(o), now, p) && (o.Exited? || o.Serving? || o.Waiting?)
    ensures Find(sb.status.conditions, "Suspended").None?
    ensures o.Exited? ==> Says(sb, "Finished", "True", ExitReason(o.code)) && Says(sb, "Ready", "False", ExitReason(o.code))
    ensures o.Serving? ==>
      && Find(sb.status.conditions, "Finished").None?
      && Says(sb, "Ready", if o.ready then "True" else "False", if o.ready then "DependenciesReady" else "DependenciesNotReady")
    ensures o.Waiting? ==>
      && Find(sb.status.conditions, "Finished") == Find(was.status.conditions, "Finished")
      && Says(sb, "Ready", "False", "DependenciesNotReady")
  {
  }

  // ---- The volumes of the templates ----

  /** A volume that no template names is the pod's own. */
  lemma {:induction false} OthersStay(pod: PodSpec, vcts: seq<Vct>, n: Name, name: Name)
    requires forall v <- vcts :: v.name != name
    ensures Chosen(WithClaims(pod, vcts, n).volumes, name) == Chosen(pod.volumes, name)
    ensures Uses(WithClaims(pod, vcts, n).volumes, name) == Uses(pod.volumes, name)
  {
    if vcts != [] {
      var v := vcts[|vcts| - 1];
      OthersStay(pod, vcts[..|vcts| - 1], n, name);
      InjectionTouchesOne(WithClaims(pod, vcts[..|vcts| - 1], n).volumes, v.name, PvcName(v, n), name);
    }
  }

  /** Under a template's name, unless the pod uses it twice, the container finds the template's claim, writable. */
  lemma {:induction false} TemplatesAreFound(pod: PodSpec, vcts: seq<Vct>, n: Name, name: Name)
    requires (exists v :: v in vcts && v.name == name) && Uses(pod.volumes, name) <= 1
    ensures Chosen(WithClaims(pod, vcts, n).volumes, name) == Some(PvcVolume(name + "-" + n, false))
  {
    var v, rest := vcts[|vcts| - 1], vcts[..|vcts| - 1];
    var before := WithClaims(pod, rest, n).volumes;
    assert vcts == rest + [v];
    if exists u :: u in rest && u.name == name {
      TemplatesAreFound(pod, rest, n, name);
    } else {
      OthersStay(pod, rest, n, name);
    }
    if v.name == name {
      InjectedIsChosen(before, name, PvcName(v, n));
    } else {
      InjectionTouchesOne(before, v.name, PvcName(v, n), name);
    }
  }
}
