/** Watch registration and the pump goroutine, one channel operation per method. */
module WatchPump {
  import opened Prelude
  import opened Objects
  import opened StoreSpec
  import opened Watch
  import opened ObjectStore
  import Decimal

  /** The events as values, with the contents their objects have now. */
  ghost predicate ReadAs(h: seq<Ev>, r: seq<Event>)
    reads set e | e in h :: e.obj
  {
    |h| == |r| && forall i :: 0 <= i < |h| ==> ReadEvent(h[i]) == r[i]
  }

  ghost function EventObjects(h: seq<Ev>): set<Unstructured> {
    set e | e in h :: e.obj
  }

  /** What an emission does to a subscription is what Offer does to the watcher it stands for. */
  lemma EmissionIsOffer(p: Pump, c: Channel, registered: bool, w: Watcher, e: Ev)
    requires p.Shows(c, registered, w) && (registered ==> !c.closed)
    ensures var c' := if registered then Offered(c, e) else c;
      p.Shows(c', registered && !c'.closed, Offer(w, ReadEvent(e)))
  {
  }

  class Pump {
    const store: Store
    const id: nat
    const gvr: GVR
    const opts: WatchOptions
    const currentRV: nat
    var bootstrap: seq<Ev>
    var hand: Option<Ev>
    /** What has gone to the client's channel so far. */
    var out: seq<Ev>
    var phase: Phase

    constructor (store: Store, id: nat, gvr: GVR, opts: WatchOptions, currentRV: nat, bootstrap: seq<Ev>)
      ensures this.store == store && this.id == id && this.gvr == gvr && this.opts == opts && this.currentRV == currentRV
      ensures this.bootstrap == bootstrap && hand == None && out == [] && phase == Running
    {
      this.store, this.id, this.gvr, this.opts, this.currentRV := store, id, gvr, opts, currentRV;
      this.bootstrap, hand, out, phase := bootstrap, None, [], Running;
    }

    /** With its channel as c, registered or not, the pump is in the state w of the protocol. */
    ghost predicate Shows(c: Channel, registered: bool, w: Watcher)
      reads this, EventObjects(bootstrap + c.buffer + out), if hand.Some? then {hand.value.obj} else {}
    {
      && w.terms.gvr == gvr && w.terms.opts == opts && w.terms.currentRV == currentRV
      && c.gvr == gvr && c.closed == w.closed && registered == w.registered
      && ReadAs(bootstrap, w.bootstrap) && ReadAs(c.buffer, w.buffer) && ReadAs(out, w.out)
      && (hand.Some? <==> w.hand.Some?) && (hand.Some? ==> ReadEvent(hand.value) == w.hand.value)
      && phase == w.phase
    }

    /** The pump and its subscription are in the state w of the protocol. */
    ghost predicate Represents(w: Watcher)
      reads *
    {
      id in store.channels && Shows(store.channels[id], id in store.subs, w)
    }

    /** Take the next event in hand: bootstrap first, then the channel, leaving when it is closed and empty. */
    method TakeNext(ghost w: Watcher)
      requires store.Valid() && Represents(w) && phase == Running && hand.None?
      modifies this`bootstrap, this`hand, this`phase, store`channels, store`outside
      ensures store.Valid() && Represents(Take(store.resources, w))
      ensures store.Model() == old(store.Model()) && (old(store.Intact()) ==> store.Intact())
      ensures id in store.channels && store.channels == old(store.channels)[id := store.channels[id]]
      ensures hand.Some? ==> hand.value.obj in store.outside
    {
      if bootstrap != [] {
        TakeBootstrap(w);
      } else if store.channels[id].buffer != [] {
        TakeLive(w);
      } else if store.channels[id].closed {
        phase := Leaving;
      }
    }

    /** A bootstrap event points at a stored object; the client gets a copy, made only now. */
    method TakeBootstrap(ghost w: Watcher)
      requires store.Valid() && Represents(w) && phase == Running && hand.None? && bootstrap != []
      modifies this`bootstrap, this`hand, store`outside
      ensures store.Valid() && Represents(Take(store.resources, w))
      ensures hand.Some? ==> fresh(hand.value.obj) && hand.value.obj in store.outside
    {
      var e := bootstrap[0];
      ghost var rest := w.bootstrap[1..];
      assert ReadAs(bootstrap[1..], rest);
      assert ReadEvent(e) == w.bootstrap[0];
      bootstrap := bootstrap[1..];
      if Matches(store.resources, gvr, opts, ReadEvent(e)) {
        var c := CopyOut(e.obj);
        hand := Some(e.(obj := c));
      }
    }

    method CopyOut(u: Unstructured) returns (c: Unstructured)
      requires store.Valid()
      modifies store`outside
      ensures store.Valid() && fresh(c) && c.content == u.content && c in store.outside
    {
      c := u.DeepCopy();
      store.Admit(c);
    }

    /** A live event is handed on with the object every other subscriber and the history point at. */
    method TakeLive(ghost w: Watcher)
      requires store.Valid() && Represents(w) && phase == Running && hand.None? && bootstrap == []
      requires store.channels[id].buffer != []
      modifies this`hand, store`channels
      ensures store.Valid() && Represents(Take(store.resources, w))
      ensures id in store.channels && store.channels == old(store.channels)[id := store.channels[id]]
      ensures hand.Some? ==> hand.value == old(store.channels[id].buffer[0]) && hand.value.obj in store.outside
    {
      assert w.bootstrap == [];
      assert ReadAs(store.channels[id].buffer[1..], w.buffer[1..]);
      var e := store.Receive(id);
      assert ReadEvent(e) == w.buffer[0];
      if e.rv > currentRV && Matches(store.resources, gvr, opts, ReadEvent(e)) {
        hand := Some(e);
      }
    }

    method DeliverHand(ghost w: Watcher)
      requires Represents(w) && phase == Running && hand.Some?
      modifies this`hand, this`out
      ensures Represents(Deliver(w)) && out == old(out) + [old(hand).value]
    {
      out := out + [hand.value];
      hand := None;
    }

    method Cancel(ghost w: Watcher)
      requires Represents(w) && phase == Running
      modifies this`phase
      ensures Represents(w.(phase := Leaving))
    {
      phase := Leaving;
    }

    method RemoveSub(ghost w: Watcher)
      requires store.Valid() && Represents(w) && phase == Leaving
      modifies this`phase, store`subs
      ensures store.Valid() && Represents(w.(phase := Unregistered, registered := false))
      ensures store.subs == old(store.subs) - {id}
    {
      store.RemoveSub(id);
      phase := Unregistered;
    }

    /** The client's channel is closed once, by the pump that fed it. */
    method CloseOut(ghost w: Watcher)
      requires Represents(w) && phase == Unregistered
      modifies this`phase
      ensures Represents(w.(phase := Finished))
    {
      phase := Finished;
    }
  }

  /** The replay part of a bootstrap: pointers to the retained events newer than the version asked for. */
  method ReplayLocked(store: Store, gvr: GVR, startRV: nat) returns (bootstrap: seq<Ev>)
    ensures ReadAs(bootstrap, Filter(NewerThan(startRV, gvr), ReadEvents(store.history)))
  {
    bootstrap := [];
    ghost var h, r: seq<Event> := ReadEvents(store.history), [];
    for i := 0 to |store.history|
      invariant r == Filter(NewerThan(startRV, gvr), h[..i])
      invariant ReadAs(bootstrap, r)
    {
      var e := store.history[i];
      assert h[..i + 1] == h[..i] + [h[i]];
      FilterLast(NewerThan(startRV, gvr), h[..i], h[i]);
      if e.rv > startRV && e.gvr == gvr {
        bootstrap := bootstrap + [e];
        r := r + [ReadEvent(e)];
      }
    }
    assert h[..|store.history|] == h;
  }

  lemma SnapshotStep(resources: map<GVR, bool>, objs: map<Key, Object>, opts: WatchOptions, order: seq<Key>, k: Key)
    requires k in objs && forall i :: 0 <= i < |order| ==> order[i] in objs
    ensures Snapshot(resources, objs, opts, order + [k]) == Snapshot(resources, objs, opts, order) +
      (var rv := Decimal.ParseRV(ResourceVersion(objs[k]));
       if InNamespace(resources, k.gvr, opts.namespace, objs[k]) && !(opts.hasStartRV && opts.startRV > 0 && rv <= opts.startRV)
       then [Event(Added, k.gvr, objs[k], rv)] else [])
  {
    assert (order + [k])[..|order|] == order;
  }

  /** The keys of a type, in some iteration order of the map. */
  method KeysOf(keys: set<Key>, gvr: GVR) returns (order: seq<Key>)
    ensures forall i, j :: 0 <= i < j < |order| ==> order[i] != order[j]
    ensures forall k :: k in order <==> k in keys && k.gvr == gvr
  {
    order := [];
    var todo := keys;
    while todo != {}
      invariant todo <= keys
      invariant forall i, j :: 0 <= i < j < |order| ==> order[i] != order[j]
      invariant forall k :: k in order <==> k in keys && k.gvr == gvr && k !in todo
      decreases |todo|
    {
      var k :| k in todo;
      todo := todo - {k};
      if k.gvr == gvr {
        order := order + [k];
      }
    }
  }

  /** The snapshot part: pointers to the stored objects themselves, in some iteration order of the map. */
  method SnapshotLocked(store: Store, gvr: GVR, opts: WatchOptions)
    returns (bootstrap: seq<Ev>, ghost order: seq<Key>)
    ensures Enumerates(order, ReadObjects(store.data), gvr)
    ensures ReadAs(bootstrap, Snapshot(store.resources, ReadObjects(store.data), opts, order))
  {
    var keys := KeysOf(store.data.Keys, gvr);
    order := keys;
    bootstrap := [];
    ghost var objs, r := ReadObjects(store.data), [];
    assert keys[..0] == [];
    for i := 0 to |keys|
      invariant r == Snapshot(store.resources, objs, opts, keys[..i]) && ReadAs(bootstrap, r)
    {
      assert keys[..i + 1] == keys[..i] + [keys[i]];
      SnapshotStep(store.resources, objs, opts, keys[..i], keys[i]);
      var u := store.data[keys[i]];
      var rv := Decimal.ParseRV(ResourceVersion(u.content));
      if InNamespace(store.resources, gvr, opts.namespace, u.content)
         && !(opts.hasStartRV && opts.startRV > 0 && rv <= opts.startRV) {
        bootstrap := bootstrap + [Ev(Added, gvr, u, rv)];
        r := r + [Event(Added, gvr, u.content, rv)];
      }
    }
    assert keys[..|keys|] == keys;
  }

  /** The bootstrap of a watch, as decided under the lock. */
  method BootstrapLocked(store: Store, gvr: GVR, opts: WatchOptions)
    returns (bootstrap: seq<Ev>, ghost order: seq<Key>)
    requires store.Valid()
    ensures Enumerates(order, store.Model().data, gvr)
    ensures ReadAs(bootstrap, Bootstrap(store.ModelNow(), gvr, opts, order))
  {
    var oldest := if store.history == [] then 0 else store.history[0].rv;
    assert oldest == OldestHistoryRV(store.ModelNow());
    bootstrap, order := SnapshotLocked(store, gvr, opts);
    if opts.hasStartRV && opts.startRV > 0 && (opts.startRV >= oldest || store.history == []) {
      bootstrap := ReplayLocked(store, gvr, opts.startRV);
    }
  }

  /** Registration under a fresh id, and the pump that will drain its channel. */
  method Launch(store: Store, gvr: GVR, opts: WatchOptions, bootstrap: seq<Ev>, ghost w: Watcher) returns (p: Pump)
    requires store.Valid() && ReadAs(bootstrap, w.bootstrap) && Registered(w, gvr, opts, store.rv)
    modifies store`subs, store`channels, store`nextSub
    ensures store.Valid() && fresh(p) && p.store == store && p.Represents(w)
    ensures p.id == old(store.nextSub) && store.channels == old(store.channels)[p.id := Channel(gvr, [], false)]
    ensures store.subs == old(store.subs) + {p.id}
  {
    var id := store.Subscribe(gvr);
    p := new Pump(store, id, gvr, opts, store.rv, bootstrap);
    assert ReadAs(p.bootstrap, w.bootstrap);
  }

  /** A watcher that has just registered. */
  ghost predicate Registered(w: Watcher, gvr: GVR, opts: WatchOptions, rv: nat) {
    && w.terms.gvr == gvr && w.terms.opts == opts && w.terms.currentRV == rv
    && w.buffer == [] && !w.closed && w.registered && w.hand == None && w.out == [] && w.phase == Running
  }

  /**
   * Watch: bootstrap and registration in one critical section, then a pump of its own. The replayed
   * events are the history's as they read now, which are the emitted ones if nobody altered them.
   */
  method StartWatch(store: Store, gvr: GVR, opts: WatchOptions)
    returns (r: Result<Pump, Error>, ghost order: seq<Key>)
    requires store.Valid()
    modifies store`subs, store`channels, store`nextSub
    ensures store.Valid()
    ensures r.Err? <==> gvr !in store.resources
    ensures r.Err? ==> store.channels == old(store.channels) && store.subs == old(store.subs)
    ensures r.Ok? ==>
      && fresh(r.value) && r.value.store == store
      && Enumerates(order, old(store.Model()).data, gvr)
      && r.value.Represents(Register(old(store.ModelNow()), gvr, opts, order))
      && r.value.id == old(store.nextSub)
      && store.channels == old(store.channels)[r.value.id := Channel(gvr, [], false)]
      && store.subs == old(store.subs) + {r.value.id}
  {
    order := [];
    if gvr !in store.resources {
      return Err(NotRegistered), [];
    }
    var bootstrap;
    bootstrap, order := BootstrapLocked(store, gvr, opts);
    ghost var w := Register(store.ModelNow(), gvr, opts, order);
    var p := Launch(store, gvr, opts, bootstrap, w);
    return Ok(p), order;
  }
}
