/** What List and Watch show of which namespace: told by keys and by the objects themselves. */
module Wanted {
  import opened Prelude
  import opened Objects
  import opened StoreSpec
  import opened StoreRuns
  import opened Watch
  import opened WatchTheorems
  import Decimal

  /** The path is the namespace's: its beginning, up to a slash. */
  ghost predicate IsUnder(path: string, ns: string) {
    exists name: string :: path == ns + "/" + name
  }

  lemma StoredUnder(resources: map<GVR, bool>, k: Key, o: Object, ns: string)
    requires WellKeyed(resources, k, o) && resources[k.gvr] && NoSlash(ns)
    ensures IsUnder(k.path, ns) <==> Namespace(o) == ns
  {
    if IsUnder(k.path, ns) {
      var name :| k.path == ns + "/" + name;
      PathInjective(Namespace(o), Name(o), ns, name);
    } else {
      assert k.path == Namespace(o) + "/" + Name(o);
    }
  }

  /**
   * A List of a namespaced type shows of one namespace exactly what is stored under its paths, and of
   * no namespace, or for a type scoped to the cluster, all there is; always what the selector selects.
   */
  lemma ListedExactly(s: State, gvr: GVR, ns: string, matches: Object -> bool)
    requires Inv(s) && gvr in s.resources && NoSlash(ns)
    ensures var all := Listed(s, gvr, ns, matches);
      && (forall k :: k in all ==> k in s.data && all[k] == s.data[k])
      && (forall k :: k in s.data ==>
            (k in all <==> k.gvr == gvr && matches(s.data[k]) && (ns == "" || !s.resources[gvr] || IsUnder(k.path, ns))))
  {
    DataWellFormed(s);
    forall k | k in s.data && k.gvr == gvr && s.resources[gvr] ensures IsUnder(k.path, ns) <==> Namespace(s.data[k]) == ns {
      StoredUnder(s.resources, k, s.data[k], ns);
    }
  }

  /** The watch asks for the event: its type, its namespace unless that is empty or means nothing, its selector. */
  predicate Wants(namespaced: bool, gvr: GVR, opts: WatchOptions, e: Event) {
    e.gvr == gvr && (!namespaced || opts.namespace == "" || Namespace(e.obj) == opts.namespace) && opts.selector(e.obj)
  }

  lemma ChoosesWanted(resources: map<GVR, bool>, gvr: GVR, opts: WatchOptions, events: seq<Event>, e: Event)
    requires gvr in resources
    ensures e in Selected(resources, gvr, opts, events) <==> e in events && Wants(resources[gvr], gvr, opts, e)
  {
    FilterMember(Chooser(resources, gvr, opts), events, e);
  }

  // ---- The bootstrap ----

  lemma {:induction false} InSnapshot(resources: map<GVR, bool>, data: map<Key, Object>, opts: WatchOptions, order: seq<Key>,
      gvr: GVR, e: Event)
    requires gvr in resources && forall i :: 0 <= i < |order| ==> order[i] in data && order[i].gvr == gvr
    ensures e in Snapshot(resources, data, opts, order) <==>
      exists k :: k in order && e == Event(Added, gvr, data[k], Decimal.ParseRV(ResourceVersion(data[k])))
        && (!resources[gvr] || opts.namespace == "" || Namespace(data[k]) == opts.namespace)
        && (!opts.hasStartRV || opts.startRV == 0 || e.rv > opts.startRV)
  {
    if order != [] {
      InSnapshot(resources, data, opts, order[..|order| - 1], gvr, e);
      assert order == order[..|order| - 1] + [order[|order| - 1]];
    }
  }

  /**
   * What a watch starts with: resuming at a retained version, the history's wanted events after it;
   * else an addition for every stored object it wants, but for those no newer than the version it named.
   */
  lemma FirstExactly(s: State, gvr: GVR, opts: WatchOptions, order: seq<Key>, e: Event)
    requires gvr in s.resources && Enumerates(order, s.data, gvr)
    ensures var first := Register(s, gvr, opts, order).terms.first;
      e in first <==> (
        Wants(s.resources[gvr], gvr, opts, e) &&
        if opts.hasStartRV && opts.startRV > 0 && (s.history == [] || s.history[0].rv <= opts.startRV)
        then e in s.history && e.rv > opts.startRV
        else
          && (exists k :: k in s.data && k.gvr == gvr
                && e == Event(Added, gvr, s.data[k], Decimal.ParseRV(ResourceVersion(s.data[k]))))
          && (!opts.hasStartRV || opts.startRV == 0 || e.rv > opts.startRV))
  {
    ChoosesWanted(s.resources, gvr, opts, Bootstrap(s, gvr, opts, order), e);
    if ReplaysHistory(s, opts) {
      FilterMember(NewerThan(opts.startRV, gvr), s.history, e);
    } else {
      InSnapshot(s.resources, s.data, opts, order, gvr, e);
      SnapshotOfStored(s, gvr, order, e);
    }
  }

  lemma SnapshotOfStored(s: State, gvr: GVR, order: seq<Key>, e: Event)
    requires Enumerates(order, s.data, gvr)
    ensures (exists k :: k in order && e == Event(Added, gvr, s.data[k], Decimal.ParseRV(ResourceVersion(s.data[k])))) <==>
      exists k :: k in s.data && k.gvr == gvr && e == Event(Added, gvr, s.data[k], Decimal.ParseRV(ResourceVersion(s.data[k])))
  {
  }

  // ---- Everything delivered ----

  ghost predicate AllWanted(st: State, w: Watcher) {
    w.terms.gvr in st.resources && forall e :: e in w.terms.first ==> Wants(st.resources[w.terms.gvr], w.terms.gvr, w.terms.opts, e)
  }

  ghost predicate WatchersWant(sys: System) {
    forall j :: 0 <= j < |sys.watchers| ==> AllWanted(sys.st, sys.watchers[j])
  }

  lemma StepKeepsWanted(a: System, step: Step)
    requires SystemInv(a) && Enabled(a, step) && WatchersWant(a)
    ensures WatchersWant(Do(a, step))
  {
    var b := Do(a, step);
    StepGrows(a, step);
    StepCarries(a, step);
    forall j | 0 <= j < |b.watchers| ensures AllWanted(b.st, b.watchers[j]) {
      if j < |a.watchers| {
        assert b.watchers[j].terms == a.watchers[j].terms && AllWanted(a.st, a.watchers[j]);
      } else {
        NewIsWanted(a.st, step.gvr, step.opts, step.order);
      }
    }
  }

  lemma NewIsWanted(st: State, gvr: GVR, opts: WatchOptions, order: seq<Key>)
    requires gvr in st.resources && Enumerates(order, st.data, gvr)
    ensures AllWanted(st, Register(st, gvr, opts, order))
  {
    forall e | e in Register(st, gvr, opts, order).terms.first ensures Wants(st.resources[gvr], gvr, opts, e) {
      ChoosesWanted(st.resources, gvr, opts, Bootstrap(st, gvr, opts, order), e);
    }
  }

  lemma {:induction false} BehaviorKeepsWanted(trace: seq<System>, i: nat)
    requires Behavior(trace) && i < |trace|
    ensures WatchersWant(trace[i])
    decreases i
  {
    if i > 0 {
      BehaviorKeepsInv(trace, i - 1);
      BehaviorKeepsWanted(trace, i - 1);
      assert Next(trace[i - 1], trace[i]);
      var step :| Enabled(trace[i - 1], step) && trace[i] == Do(trace[i - 1], step);
      StepKeepsWanted(trace[i - 1], step);
    }
  }

  /** What is owed is what the watch starts with, and of what is committed later exactly what it wants. */
  lemma OwedExactly(st: State, t: Terms, e: Event)
    requires t.since <= |st.log| && t.gvr in st.resources
    ensures e in Owed(st, t) <==> e in t.first || (e in st.log[t.since..] && Wants(st.resources[t.gvr], t.gvr, t.opts, e))
  {
    ChoosesWanted(st.resources, t.gvr, t.opts, st.log[t.since..], e);
  }

  /** At every point of every behavior everything a watcher received is of its type, its namespace and its selector. */
  lemma DeliveredIsWanted(trace: seq<System>, i: nat, j: nat, e: Event)
    requires Behavior(trace) && i < |trace| && j < |trace[i].watchers| && e in trace[i].watchers[j].out
    ensures var st, t := trace[i].st, trace[i].watchers[j].terms;
      && t.gvr in st.resources && e.gvr == t.gvr && t.opts.selector(e.obj)
      && (st.resources[t.gvr] && t.opts.namespace != "" ==> Namespace(e.obj) == t.opts.namespace)
  {
    BehaviorKeepsWanted(trace, i);
    assert AllWanted(trace[i].st, trace[i].watchers[j]);
    DeliveredIsPrefix(trace, i, j);
    var st, w := trace[i].st, trace[i].watchers[j];
    assert e in Owed(st, w.terms);
    OwedExactly(st, w.terms, e);
  }

  /** ... and once it is drained, it received everything committed since it registered that it asks for. */
  lemma WantedIsDelivered(trace: seq<System>, i: nat, j: nat, x: nat)
    requires Behavior(trace) && i < |trace| && j < |trace[i].watchers|
    requires var w := trace[i].watchers[j];
      w.phase.Running? && w.registered && w.hand.None? && w.bootstrap == [] && w.buffer == []
    requires var st, t := trace[i].st, trace[i].watchers[j].terms;
      && t.since <= x < |st.log| && st.log[x].gvr == t.gvr && t.opts.selector(st.log[x].obj)
      && (t.opts.namespace == "" || Namespace(st.log[x].obj) == t.opts.namespace)
    ensures trace[i].st.log[x] in trace[i].watchers[j].out
  {
    BehaviorKeepsWanted(trace, i);
    assert AllWanted(trace[i].st, trace[i].watchers[j]);
    DeliveredIsPrefix(trace, i, j);
    var st, t := trace[i].st, trace[i].watchers[j].terms;
    assert st.log[t.since..][x - t.since] == st.log[x];
    OwedExactly(st, t, st.log[x]);
  }
}
