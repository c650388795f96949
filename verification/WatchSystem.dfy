/**
 * The store on the heap with all its pumps runs the watch protocol: every write, registration and
 * pump operation of the code is the protocol's step, for every watcher at once.
 */
module WatchSystem {
  import opened Prelude
  import opened StoreSpec
  import opened StoreRuns
  import opened Watch
  import opened ObjectStore
  import opened WatchPump
  import opened Objects
  import opened Persist

  /** The store and its pumps are in the state sys of the protocol, and nobody altered a delivered event. */
  ghost predicate Runs(store: Store, pumps: seq<Pump>, sys: System)
    reads *
  {
    && store.Valid() && store.Intact() && store.Model() == sys.st
    && (forall p <- pumps :: p.store == store) && AllShow(pumps, store.channels, store.subs, sys.watchers)
    && DistinctIds(pumps)
  }

  ghost predicate DistinctIds(pumps: seq<Pump>) {
    forall i, j :: 0 <= i < j < |pumps| ==> pumps[i].id != pumps[j].id
  }

  /** With these channels and registrations the pumps stand for these watchers. */
  ghost predicate AllShow(pumps: seq<Pump>, channels: map<nat, Channel>, subs: set<nat>, watchers: seq<Watcher>)
    reads set p | p in pumps
    reads set p, e | p in pumps && e in p.bootstrap + p.out :: e.obj
    reads set p | p in pumps && p.hand.Some? :: p.hand.value.obj
    reads set id, e | id in channels && e in channels[id].buffer :: e.obj
  {
    && |pumps| == |watchers|
    && forall i :: 0 <= i < |pumps| ==>
      pumps[i].id in channels && pumps[i].Shows(channels[pumps[i].id], pumps[i].id in subs, watchers[i])
  }

  /** A registered channel is open. */
  ghost predicate Opened(channels: map<nat, Channel>, subs: set<nat>) {
    forall id :: id in subs && id in channels ==> !channels[id].closed
  }

  /** An announced event moves every pump to where the protocol's watcher is after the offer. */
  lemma AllReached(store: Store, pumps: seq<Pump>, channels: map<nat, Channel>, subs: set<nat>, watchers: seq<Watcher>)
    requires Opened(channels, subs) && AllShow(pumps, channels, subs, watchers) && store.Announced(channels, subs)
    ensures AllShow(pumps, store.channels, store.subs, FanOut(watchers, store.log[|store.log| - 1]))
  {
    forall i | 0 <= i < |pumps|
      ensures var id := pumps[i].id;
        id in store.channels && pumps[i].Shows(store.channels[id], id in store.subs, Offer(watchers[i], store.log[|store.log| - 1]))
    {
      EmissionIsOffer(pumps[i], channels[pumps[i].id], pumps[i].id in subs, watchers[i], store.Latest());
    }
  }

  /** Any operation, by value: what the code's methods have in common. */
  method Perform(store: Store, op: Op) returns (r: Result<Unstructured, Error>)
    requires store.Valid() && Admissible(store.Model(), op)
    modifies store`rv, store`data, store`history, store`subs, store`channels, store`log, store`outside, store`recorded, store.persist
    ensures store.Valid() && (old(store.Intact()) ==> store.Intact()) && (old(store.OnDisk()) ==> store.OnDisk())
    ensures store.Gives(Apply(old(store.Model()), op), r) && (r.Ok? ==> fresh(r.value))
    ensures store.Told(r.Ok?, old(store.channels), old(store.subs)) && (r.Ok? ==> fresh(store.Latest().obj))
    ensures store.Stored(r.Ok?, OpKey(old(store.Model()), op), old(store.DiskNow()))
  {
    match op
    case CreateOp(gvr, content, minted) =>
      var obj := new Unstructured(content);
      r := store.Create(gvr, obj, minted);
    case UpdateOp(gvr, content, isStatus) =>
      var obj := new Unstructured(content);
      r := store.Update(gvr, obj, isStatus);
    case PatchOp(gvr, namespace, name, patch, isStatus) =>
      r := store.Patch(gvr, namespace, name, patch, isStatus);
    case DeleteOp(gvr, namespace, name) =>
      r := store.DeleteLocked(gvr, namespace, name);
  }

  /** The transaction a successful operation leaves on the disk is the one its event in the log tells. */
  lemma StoredIsTxn(store: Store, s: State, op: Op, disk: Disk)
    requires Inv(s) && Admissible(s, op) && Apply(s, op).result.Ok? && store.log == Apply(s, op).state.log
    requires store.persist != null && store.Stored(true, OpKey(s, op), disk)
    ensures store.DiskNow() == Txn(s.resources, disk, store.log[|s.log|]) && |store.log| == |s.log| + 1
  {
    WroteIsTxn(s, op, disk);
  }

  /** A write touches no pump. */
  method PerformWatched(store: Store, pumps: seq<Pump>, ghost watchers: seq<Watcher>, op: Op)
    returns (r: Result<Unstructured, Error>)
    requires store.Valid() && AllShow(pumps, store.channels, store.subs, watchers) && Admissible(store.Model(), op)
    modifies store`rv, store`data, store`history, store`subs, store`channels, store`log, store`outside, store`recorded, store.persist
    ensures store.Valid() && (old(store.Intact()) ==> store.Intact())
    ensures store.Gives(Apply(old(store.Model()), op), r)
    ensures store.Told(r.Ok?, old(store.channels), old(store.subs))
    ensures AllShow(pumps, old(store.channels), old(store.subs), watchers)
  {
    r := Perform(store, op);
  }

  /** Every watcher is offered the event of a successful write, and a failed one offers nothing. */
  method WriteReaches(store: Store, pumps: seq<Pump>, ghost watchers: seq<Watcher>, op: Op) returns (r: Result<Unstructured, Error>)
    requires store.Valid() && AllShow(pumps, store.channels, store.subs, watchers) && Admissible(store.Model(), op)
    modifies store`rv, store`data, store`history, store`subs, store`channels, store`log, store`outside, store`recorded, store.persist
    ensures store.Valid() && (old(store.Intact()) ==> store.Intact())
    ensures store.Gives(Apply(old(store.Model()), op), r)
    ensures r.Err? ==> AllShow(pumps, store.channels, store.subs, watchers)
    ensures r.Ok? ==> store.log != [] && AllShow(pumps, store.channels, store.subs, FanOut(watchers, store.log[|store.log| - 1]))
  {
    ghost var channels, subs := store.channels, store.subs;
    assert Opened(channels, subs);
    r := PerformWatched(store, pumps, watchers, op);
    if r.Ok? {
      AllReached(store, pumps, channels, subs, watchers);
    }
  }

  /** A write is the protocol's write step. */
  method Write(store: Store, pumps: seq<Pump>, ghost sys: System, op: Op) returns (r: Result<Unstructured, Error>)
    requires Runs(store, pumps, sys) && Enabled(sys, Step.Write(op))
    modifies store`rv, store`data, store`history, store`subs, store`channels, store`log, store`outside, store`recorded, store.persist
    ensures Runs(store, pumps, Do(sys, Step.Write(op)))
    ensures r.Ok? <==> Apply(sys.st, op).result.Ok?
  {
    r := WriteReaches(store, pumps, sys.watchers, op);
  }

  // ---- The pumps' steps ----

  method TakeShown(store: Store, ghost pumps: seq<Pump>, ghost watchers: seq<Watcher>, ghost i: nat, p: Pump)
    requires store.Valid() && AllShow(pumps, store.channels, store.subs, watchers) && DistinctIds(pumps)
    requires i < |pumps| && p == pumps[i] && p.store == store && p.phase == Running && p.hand.None?
    modifies p`bootstrap, p`hand, p`phase, store`channels, store`outside
    ensures store.Valid() && AllShow(pumps, store.channels, store.subs, watchers[i := Take(store.resources, watchers[i])])
    ensures store.Model() == old(store.Model()) && (old(store.Intact()) ==> store.Intact())
  {
    ghost var channels, taken := store.channels, watchers[i := Take(store.resources, watchers[i])];
    p.TakeNext(watchers[i]);
    forall j | 0 <= j < |pumps|
      ensures pumps[j].id in store.channels && pumps[j].Shows(store.channels[pumps[j].id], pumps[j].id in store.subs, taken[j])
    {
      if j != i {
        assert pumps[j].id != p.id && store.channels[pumps[j].id] == channels[pumps[j].id];
      }
    }
  }

  method TakeNext(store: Store, ghost pumps: seq<Pump>, ghost sys: System, ghost i: nat, p: Pump)
    requires Runs(store, pumps, sys) && Enabled(sys, Step.TakeNext(i)) && p == pumps[i]
    modifies p`bootstrap, p`hand, p`phase, store`channels, store`outside
    ensures Runs(store, pumps, Do(sys, Step.TakeNext(i)))
  {
    TakeShown(store, pumps, sys.watchers, i, p);
  }

  method DeliverHand(store: Store, ghost pumps: seq<Pump>, ghost sys: System, ghost i: nat, p: Pump)
    requires Runs(store, pumps, sys) && Enabled(sys, Step.DeliverHand(i)) && p == pumps[i]
    modifies p`hand, p`out
    ensures Runs(store, pumps, Do(sys, Step.DeliverHand(i)))
  {
    p.DeliverHand(sys.watchers[i]);
  }

  method Cancel(store: Store, ghost pumps: seq<Pump>, ghost sys: System, ghost i: nat, p: Pump)
    requires Runs(store, pumps, sys) && Enabled(sys, Step.Cancel(i)) && p == pumps[i]
    modifies p`phase
    ensures Runs(store, pumps, Do(sys, Step.Cancel(i)))
  {
    p.Cancel(sys.watchers[i]);
  }

  method RemoveSub(store: Store, ghost pumps: seq<Pump>, ghost sys: System, ghost i: nat, p: Pump)
    requires Runs(store, pumps, sys) && Enabled(sys, Step.RemoveSub(i)) && p == pumps[i]
    modifies p`phase, store`subs
    ensures Runs(store, pumps, Do(sys, Step.RemoveSub(i)))
  {
    p.RemoveSub(sys.watchers[i]);
  }

  method CloseOut(store: Store, ghost pumps: seq<Pump>, ghost sys: System, ghost i: nat, p: Pump)
    requires Runs(store, pumps, sys) && Enabled(sys, Step.CloseOut(i)) && p == pumps[i]
    modifies p`phase
    ensures Runs(store, pumps, Do(sys, Step.CloseOut(i)))
  {
    p.CloseOut(sys.watchers[i]);
  }

  /** A new watch comes after the others and leaves them alone. */
  method OpenShown(store: Store, ghost pumps: seq<Pump>, ghost watchers: seq<Watcher>, gvr: GVR, opts: WatchOptions)
    returns (r: Result<Pump, Error>, ghost order: seq<Key>)
    requires store.Valid() && AllShow(pumps, store.channels, store.subs, watchers) && DistinctIds(pumps)
    modifies store`subs, store`channels, store`nextSub
    ensures store.Valid() && (r.Ok? <==> gvr in store.resources)
    ensures r.Err? ==> store.channels == old(store.channels) && store.subs == old(store.subs)
    ensures r.Ok? ==>
      && r.value.store == store && Enumerates(order, old(store.Model()).data, gvr)
      && DistinctIds(pumps + [r.value])
      && AllShow(pumps + [r.value], store.channels, store.subs,
                 watchers + [Register(old(store.ModelNow()), gvr, opts, order)])
  {
    r, order := WatchPump.StartWatch(store, gvr, opts);
  }

  /** A watch is the protocol's registration step, in some iteration order of the map. */
  method OpenWatch(store: Store, ghost pumps: seq<Pump>, ghost sys: System, gvr: GVR, opts: WatchOptions)
    returns (r: Result<Pump, Error>, ghost order: seq<Key>)
    requires Runs(store, pumps, sys)
    modifies store`subs, store`channels, store`nextSub
    ensures r.Ok? <==> gvr in sys.st.resources
    ensures r.Err? ==> Runs(store, pumps, sys)
    ensures r.Ok? ==>
      && Enabled(sys, Step.StartWatch(gvr, opts, order))
      && Runs(store, pumps + [r.value], Do(sys, Step.StartWatch(gvr, opts, order)))
  {
    store.IntactIsNow();
    r, order := OpenShown(store, pumps, sys.watchers, gvr, opts);
  }
}
