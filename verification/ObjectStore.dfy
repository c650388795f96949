/** The store itself: objects on the heap, a map and a history of pointers, subscriptions with channels. */
module ObjectStore {
  import opened Prelude
  import opened Json
  import opened Objects
  import opened StoreSpec
  import opened Watch
  import opened Persist
  import Decimal

  class Unstructured {
    var content: Object

    constructor (o: Object)
      ensures content == o
    {
      content := o;
    }

    method DeepCopy() returns (r: Unstructured)
      ensures fresh(r) && r.content == content
    {
      r := new Unstructured(content);
    }
  }

  datatype Ev = Ev(kind: EventType, gvr: GVR, obj: Unstructured, rv: nat)

  /** The event as a value, with the contents its object has now. */
  function ReadEvent(e: Ev): Event
    reads e.obj
  {
    Event(e.kind, e.gvr, e.obj.content, e.rv)
  }

  /** The events with the contents their objects have now. */
  ghost function ReadEvents(h: seq<Ev>): (r: seq<Event>)
    reads set e | e in h :: e.obj
    ensures |r| == |h| && forall i :: 0 <= i < |h| ==> r[i] == ReadEvent(h[i])
  {
    if h == [] then [] else [ReadEvent(h[0])] + ReadEvents(h[1..])
  }

  ghost function ReadObjects(m: map<Key, Unstructured>): map<Key, Object>
    reads m.Values
  {
    map k | k in m :: m[k].content
  }

  /** The buffered channel of a subscription. */
  datatype Channel = Channel(gvr: GVR, buffer: seq<Ev>, closed: bool)

  /** An open channel after the non-blocking send of one event. */
  function Offered(c: Channel, e: Ev): Channel {
    if c.gvr != e.gvr then c
    else if |c.buffer| < BUFFER then c.(buffer := c.buffer + [e])
    else c.(closed := true)
  }

  function OfferedAll(channels: map<nat, Channel>, subs: set<nat>, e: Ev): map<nat, Channel> {
    map id | id in channels :: if id in subs then Offered(channels[id], e) else channels[id]
  }

  function StillOpen(channels: map<nat, Channel>, subs: set<nat>): set<nat> {
    set id | id in subs && id in channels && !channels[id].closed
  }

  ghost predicate WellChanneled(channels: map<nat, Channel>, subs: set<nat>, next: nat, outside: set<Unstructured>) {
    && subs <= channels.Keys && (forall id :: id in channels ==> id < next)
    && (forall id :: id in subs ==> !channels[id].closed && |channels[id].buffer| <= BUFFER)
    && (forall id :: id in channels ==> forall e :: e in channels[id].buffer ==> e.obj in outside)
  }

  lemma OfferedStayWellChanneled(channels: map<nat, Channel>, subs: set<nat>, next: nat, outside: set<Unstructured>,
      e: Ev)
    requires WellChanneled(channels, subs, next, outside) && e.obj in outside
    ensures var c := OfferedAll(channels, subs, e); WellChanneled(c, StillOpen(c, subs), next, outside)
  {
  }

  lemma UnionReads(m: map<Key, Unstructured>, n: map<Key, Unstructured>)
    ensures ReadObjects(m + n) == ReadObjects(m) + ReadObjects(n) && (m + n).Values <= m.Values + n.Values
  {
  }

  class Store {
    var resources: map<GVR, bool>
    var data: map<Key, Unstructured>
    var rv: nat
    var history: seq<Ev>
    var histCap: nat
    /** subs are the registered subscriptions; the channel of a dropped one lives on in its pump. */
    var subs: set<nat>
    var channels: map<nat, Channel>
    var nextSub: nat
    var persist: BoltPersister?

    ghost var base: map<Key, Object>
    ghost var baseRV: nat
    ghost var log: seq<Event>
    /** The events of the history as they were emitted. */
    ghost var recorded: seq<Event>
    /** Every object callers passed in or were given, and every object an event carries. */
    ghost var outside: set<Unstructured>

    ghost function Model(): State
      reads this, data.Values
    {
      State(resources, ReadObjects(data), rv, recorded, histCap, base, baseRV, log)
    }

    /** Every registered channel is open, and buffers hold only event objects. */
    ghost predicate ChannelsOk()
      reads `subs, `channels, `nextSub, `outside
    {
      WellChanneled(channels, subs, nextSub, outside)
    }

    ghost predicate HistoryOk()
      reads `history, `recorded, `outside
    {
      && |recorded| == |history|
      && (forall i :: 0 <= i < |history| ==> Records(recorded[i], history[i]) && history[i].obj in outside)
    }

    /** No stored object is ever held outside the map. */
    ghost predicate Unshared()
      reads `data, `outside
    {
      outside !! data.Values
    }

    ghost predicate Valid()
      reads this
    {
      histCap > 0 && ChannelsOk() && HistoryOk() && Unshared()
    }

    static predicate Records(r: Event, e: Ev) { r.kind == e.kind && r.gvr == e.gvr && r.rv == e.rv }

    /**
     * Nobody has altered an event's object since it was emitted. Live deliveries hand out these very
     * objects, so this is in the hands of whoever receives them; no method of the store breaks it.
     */
    ghost predicate Intact()
      requires |recorded| == |history|
      reads `history, `recorded, set e | e in history :: e.obj
    {
      forall i :: 0 <= i < |history| ==> history[i].obj.content == recorded[i].obj
    }

    /** The event emitted last. */
    function Latest(): Ev
      requires history != []
      reads `history
    {
      history[|history| - 1]
    }

    /** The event that ends the log went to every registered channel; those found full were closed and dropped. */
    ghost predicate Announced(was: map<nat, Channel>, registered: set<nat>)
      reads `channels, `subs, `history, `log, set e | e in history :: e.obj
    {
      && history != [] && log != [] && ReadEvent(Latest()) == log[|log| - 1]
      && channels == OfferedAll(was, registered, Latest()) && subs == StillOpen(channels, registered)
    }

    /** What became of a write: a failed one told nobody. */
    ghost predicate Told(ok: bool, was: map<nat, Channel>, registered: set<nat>)
      reads `channels, `subs, `history, `log, set e | e in history :: e.obj
    {
      if ok then Announced(was, registered) else channels == was && subs == registered
    }

    ghost function DiskNow(): Disk
      reads `persist, persist
    {
      if persist == null then map[] else persist.buckets
    }

    /** A successful write under k put its event on the disk, in one transaction; a failed one left the disk alone. */
    ghost predicate Stored(ok: bool, k: Key, disk: Disk)
      reads `persist, persist, `log
    {
      && (ok ==> log != [])
      && (persist != null ==> DiskNow() == if ok then Wrote(disk, k, log[|log| - 1]) else disk)
    }

    /** The disk, if there is one, holds the contents and the version. */
    ghost predicate OnDisk()
      reads `resources, `data, `rv, `persist, persist, data.Values
    {
      persist != null && ParseableTypes(resources) ==> DiskMatches(resources, DiskNow(), ReadObjects(data), rv)
    }

    /** The model, with the history as its objects read now. */
    ghost function ModelNow(): State
      reads this, data.Values, set e | e in history :: e.obj
    {
      Model().(history := ReadEvents(history))
    }

    lemma IntactIsNow()
      requires Valid()
      ensures Intact() <==> ModelNow() == Model()
    {
      if Intact() {
        assert ReadEvents(history) == recorded;
      }
    }

    constructor (resources: map<GVR, bool>, histCap: int, startRV: nat, persist: BoltPersister?)
      ensures Valid() && Intact() && Model() == New(resources, histCap, map[], startRV)
      ensures subs == {} && channels == map[] && this.persist == persist && outside == {}
      ensures this.histCap == if histCap <= 0 then 8192 else histCap
    {
      this.resources, data, rv, history := resources, map[], startRV, [];
      this.histCap := if histCap <= 0 then DEFAULT_HISTORY else histCap;
      subs, channels, nextSub, this.persist := {}, map[], 0, persist;
      base, baseRV, log, outside, recorded := map[], startRV, [], {}, [];
    }

    /** Sending on or closing a closed channel would panic; every caller shows it is open. */
    method Send(id: nat, e: Ev)
      requires id in channels && !channels[id].closed && |channels[id].buffer| < BUFFER
      modifies this`channels
      ensures channels == old(channels)[id := old(channels)[id].(buffer := old(channels)[id].buffer + [e])]
    {
      channels := channels[id := channels[id].(buffer := channels[id].buffer + [e])];
    }

    method CloseChannel(id: nat)
      requires id in channels && !channels[id].closed
      modifies this`channels
      ensures channels == old(channels)[id := old(channels)[id].(closed := true)]
    {
      channels := channels[id := channels[id].(closed := true)];
    }

    /** The fan-out of emitLocked: every registered channel is offered the event, full ones are dropped. */
    method FanOutLocked(e: Ev)
      requires subs <= channels.Keys && forall id :: id in subs ==> !channels[id].closed
      modifies this`subs, this`channels
      ensures channels == OfferedAll(old(channels), old(subs), e)
      ensures subs == StillOpen(channels, old(subs))
    {
      var todo := subs;
      ghost var was, open := channels, subs;
      while todo != {}
        invariant todo <= subs <= open
        invariant channels == map id | id in was :: if id in open - todo then Offered(was[id], e) else was[id]
        invariant forall id :: id in open ==> (id in subs <==> !channels[id].closed)
        decreases |todo|
      {
        var id :| id in todo;
        todo := todo - {id};
        if channels[id].gvr == e.gvr {
          if |channels[id].buffer| < BUFFER {
            Send(id, e);
          } else {
            CloseChannel(id);
            subs := subs - {id};
          }
        }
      }
      assert open - todo == open;
    }

    method AppendLocked(e: Ev)
      requires histCap > 0 && HistoryOk() && e.obj in outside
      modifies this`history, this`log, this`recorded
      ensures HistoryOk() && (old(Intact()) ==> Intact()) && history != [] && Latest() == e
      ensures log == old(log) + [ReadEvent(e)] && recorded == Trim(old(recorded) + [ReadEvent(e)], histCap)
    {
      ghost var read := ReadEvent(e);
      history := history + [e];
      recorded := recorded + [read];
      log := log + [read];
      assert HistoryOk() && (old(Intact()) ==> Intact());
      TrimLocked();
    }

    method TrimLocked()
      requires HistoryOk()
      modifies this`history, this`recorded
      ensures HistoryOk() && (old(Intact()) ==> Intact())
      ensures recorded == Trim(old(recorded), histCap)
      ensures old(history) != [] && histCap > 0 ==> history != [] && Latest() == old(Latest())
    {
      if |history| > histCap {
        var drop := |history| - histCap;
        history := history[drop..];
        recorded := recorded[drop..];
      }
    }

    /** emitLocked: append to the history, trim it, and fan the event out. */
    method EmitLocked(e: Ev)
      requires Valid() && e.obj in outside
      modifies this`history, this`subs, this`channels, this`log, this`recorded
      ensures Valid() && (old(Intact()) ==> Intact()) && history != [] && Latest() == e
      ensures log == old(log) + [ReadEvent(e)] && recorded == Trim(old(recorded) + [ReadEvent(e)], histCap)
      ensures channels == OfferedAll(old(channels), old(subs), e) && subs == StillOpen(channels, old(subs))
    {
      OfferedStayWellChanneled(channels, subs, nextSub, outside, e);
      AppendLocked(e);
      FanOutLocked(e);
    }

    /** putLocked: file the object and save it with the new version in one transaction. */
    method PutLocked(k: Key, o: Unstructured)
      modifies this`data, persist
      ensures data == old(data)[k := o]
      ensures persist != null ==> persist.buckets == Saved(old(persist.buckets), k.gvr, k.path, o.content, rv)
    {
      data := data[k := o];
      if persist != null {
        persist.SaveObject(k.gvr, k.path, o.content, rv);
      }
    }

    /** One copy of the written object for the event, one for the caller. */
    method Announce(kind: EventType, gvr: GVR, o: Unstructured) returns (r: Unstructured)
      requires Valid()
      modifies this`history, this`subs, this`channels, this`log, this`outside, this`recorded
      ensures Valid() && (old(Intact()) ==> Intact())
      ensures Announced(old(channels), old(subs)) && fresh(Latest().obj)
      ensures fresh(r) && r.content == o.content && outside == old(outside) + {Latest().obj, r}
      ensures var ev := Event(kind, gvr, o.content, rv);
        log == old(log) + [ev] && recorded == Trim(old(recorded) + [ev], histCap)
    {
      var x := o.DeepCopy();
      r := o.DeepCopy();
      outside := outside + {x, r};
      EmitLocked(Ev(kind, gvr, x, rv));
    }

    /** The common tail of Create, Update and Patch. */
    method PutAndEmit(k: Key, o: Unstructured, kind: EventType) returns (r: Unstructured)
      requires Valid() && o !in outside && o !in data.Values
      modifies this`rv, this`data, this`history, this`subs, this`channels, this`log, this`outside, this`recorded, persist
      ensures Valid() && (old(Intact()) ==> Intact())
      ensures Announced(old(channels), old(subs)) && fresh(Latest().obj)
      ensures fresh(r) && outside == old(outside) + {Latest().obj, r} && data == old(data)[k := o]
      ensures var ev := Event(kind, k.gvr, o.content, rv);
        r.content == o.content && rv == old(rv) + 1 &&
        log == old(log) + [ev] && recorded == Trim(old(recorded) + [ev], histCap)
      ensures persist != null ==> persist.buckets == Saved(old(persist.buckets), k.gvr, k.path, o.content, rv)
    {
      rv := rv + 1;
      PutLocked(k, o);
      r := Announce(kind, k.gvr, o);
    }

    /** A committed write of a fresh copy, as the model tells it. */
    method Commits(k: Key, content: Object, kind: EventType) returns (r: Result<Unstructured, Error>)
      requires Valid() && k.gvr in resources && !kind.Deleted?
      modifies this`rv, this`data, this`history, this`subs, this`channels, this`log, this`outside, this`recorded, persist
      ensures Valid() && (old(Intact()) ==> Intact()) && (old(OnDisk()) ==> OnDisk())
      ensures Told(true, old(channels), old(subs)) && fresh(Latest().obj) && Stored(true, k, old(DiskNow()))
      ensures r.Ok? && fresh(r.value) && outside >= old(outside)
      ensures var ev := Event(kind, k.gvr, content, old(rv) + 1);
        Gives(Outcome(Commit(old(Model()), k, Some(content), ev), Ok(content)), r)
    {
      ghost var m, disk := Model(), DiskNow();
      var c := FileCopy(k, content, kind);
      IsCommit(m, Model(), k, content, Event(kind, k.gvr, content, rv));
      if persist != null && ParseableTypes(resources) && old(OnDisk()) {
        WroteKeepsMatch(resources, disk, m.data, m.rv, k, Event(kind, k.gvr, content, rv));
      }
      return Ok(c);
    }

    method FileCopy(k: Key, content: Object, kind: EventType) returns (r: Unstructured)
      requires Valid()
      modifies this`rv, this`data, this`history, this`subs, this`channels, this`log, this`outside, this`recorded, persist
      ensures Valid() && (old(Intact()) ==> Intact())
      ensures fresh(r) && r.content == content && r in outside && outside >= old(outside)
      ensures ReadObjects(data) == old(ReadObjects(data))[k := content] && rv == old(rv) + 1
      ensures var ev := Event(kind, k.gvr, content, rv);
        log == old(log) + [ev] && recorded == Trim(old(recorded) + [ev], histCap)
      ensures Announced(old(channels), old(subs)) && fresh(Latest().obj)
      ensures persist != null ==> persist.buckets == Saved(old(persist.buckets), k.gvr, k.path, content, rv)
    {
      var o := new Unstructured(content);
      ghost var before := ReadObjects(data);
      r := PutAndEmit(k, o, kind);
      FiledReads(before, k, content);
    }

    lemma FiledReads(before: map<Key, Object>, k: Key, content: Object)
      requires k in data && data[k].content == content && data.Keys == before.Keys + {k}
      requires forall x :: x in data && x != k ==> data[x].content == before[x]
      ensures ReadObjects(data) == before[k := content]
    {
    }

    /** Field by field, a commit. */
    static lemma IsCommit(m: State, m2: State, k: Key, content: Object, ev: Event)
      requires m2.resources == m.resources && m2.data == m.data[k := content] && m2.rv == m.rv + 1
      requires m2.history == Trim(m.history + [ev], m.histCap) && m2.histCap == m.histCap
      requires m2.base == m.base && m2.baseRV == m.baseRV && m2.log == m.log + [ev]
      ensures m2 == Commit(m, k, Some(content), ev)
    {
    }

    /** What an operation returned, next to what the model says it should. */
    ghost predicate Gives(o: Outcome, r: Result<Unstructured, Error>)
      reads this, data.Values, if r.Ok? then {r.value} else {}
    {
      && Model() == o.state
      && (r.Ok? <==> o.result.Ok?)
      && (r.Ok? ==> r.value.content == o.result.value && r.value in outside)
      && (r.Err? ==> r.error == o.result.error)
    }

    /** A caller that passes an object in can still reach it afterwards. */
    ghost method Admit(obj: Unstructured)
      requires Valid() && obj !in data.Values
      modifies this`outside
      ensures Valid() && outside == old(outside) + {obj}
      ensures Model() == old(Model()) && (old(Intact()) ==> Intact())
    {
      outside := outside + {obj};
    }

    method Create(gvr: GVR, obj: Unstructured, minted: Minted) returns (r: Result<Unstructured, Error>)
      requires Valid() && obj !in data.Values && SuffixFree(Model(), gvr, obj.content, minted.suffix)
      modifies this`rv, this`data, this`history, this`subs, this`channels, this`log, this`outside, this`recorded, persist
      ensures Valid() && (old(Intact()) ==> Intact()) && (old(OnDisk()) ==> OnDisk())
      ensures Gives(StoreSpec.Create(old(Model()), gvr, obj.content, minted), r)
      ensures Told(r.Ok?, old(channels), old(subs)) && (r.Ok? ==> fresh(Latest().obj))
      ensures Stored(r.Ok?, CreateKey(old(Model()), gvr, obj.content, minted.suffix), old(DiskNow()))
      ensures r.Ok? ==> fresh(r.value)
      ensures obj in outside && outside >= old(outside)
    {
      Admit(obj);
      r := CreateContent(gvr, obj.content, minted);
    }

    /** Create, from a copy of the contents it was given. */
    method CreateContent(gvr: GVR, content: Object, minted: Minted) returns (r: Result<Unstructured, Error>)
      requires Valid() && SuffixFree(Model(), gvr, content, minted.suffix)
      modifies this`rv, this`data, this`history, this`subs, this`channels, this`log, this`outside, this`recorded, persist
      ensures Valid() && (old(Intact()) ==> Intact()) && (old(OnDisk()) ==> OnDisk())
      ensures Gives(StoreSpec.Create(old(Model()), gvr, content, minted), r)
      ensures Told(r.Ok?, old(channels), old(subs)) && (r.Ok? ==> fresh(Latest().obj))
      ensures Stored(r.Ok?, CreateKey(old(Model()), gvr, content, minted.suffix), old(DiskNow()))
      ensures r.Ok? ==> fresh(r.value)
      ensures outside >= old(outside)
    {
      var prepared := PrepareCreate(gvr, content, minted);
      if prepared.Err? {
        return Err(prepared.error);
      }
      r := Commits(prepared.value.0, prepared.value.1, Added);
    }

    /** What Create refuses, and else the key and the object it files. */
    method PrepareCreate(gvr: GVR, content: Object, minted: Minted) returns (r: Result<(Key, Object), Error>)
      requires Valid() && SuffixFree(Model(), gvr, content, minted.suffix)
      ensures var m := Model(); var made := StoreSpec.Create(m, gvr, content, minted);
        match r
        case Err(error) => made == Outcome(m, Err(error))
        case Ok(p) =>
          && p.0 == CreateKey(m, gvr, content, minted.suffix) && p.0.gvr in resources
          && made == Outcome(Commit(m, p.0, Some(p.1), Event(Added, p.0.gvr, p.1, rv + 1)), Ok(p.1))
    {
      if gvr !in resources {
        return Err(NotRegistered);
      }
      var o := content;
      if !resources[gvr] {
        o := WithMetaString(o, "namespace", "");
      }
      var name := Name(o);
      if name == "" {
        if GenerateName(o) == "" {
          return Err(BadRequest);
        }
        name := GenerateName(o) + minted.suffix;
      }
      var k := KeyFor(resources, gvr, Namespace(o), name);
      if k in data {
        return Err(AlreadyExists);
      }
      CreateCommits(Model(), gvr, content, minted, name, k);
      return Ok((k, WithRV(Prepared(o, name, minted), rv + 1)));
    }

    /** A Create that gets as far as the store's contents commits the prepared object. */
    static lemma CreateCommits(m: State, gvr: GVR, content: Object, minted: Minted, name: string, k: Key)
      requires SuffixFree(m, gvr, content, minted.suffix) && gvr in m.resources && name != ""
      requires name == CreateName(Scoped(m.resources, gvr, content), minted.suffix)
      requires k == CreateKey(m, gvr, content, minted.suffix) && k !in m.data
      ensures var o := WithRV(Prepared(Scoped(m.resources, gvr, content), name, minted), m.rv + 1);
        StoreSpec.Create(m, gvr, content, minted) == Outcome(Commit(m, k, Some(o), Event(Added, gvr, o, m.rv + 1)), Ok(o))
    {
    }

    method Get(gvr: GVR, namespace: string, name: string) returns (r: Result<Unstructured, Error>)
      requires Valid()
      modifies this`outside
      ensures Valid() && (old(Intact()) ==> Intact()) && Model() == old(Model())
      ensures var m := StoreSpec.Get(Model(), gvr, namespace, name);
        && (r.Ok? <==> m.Ok?) && (r.Err? ==> r.error == m.error)
        && (r.Ok? ==> fresh(r.value) && r.value in outside && r.value.content == m.value)
    {
      if gvr !in resources {
        return Err(NotRegistered);
      }
      var k := KeyFor(resources, gvr, namespace, name);
      if k !in data {
        return Err(NotFound);
      }
      var c := data[k].DeepCopy();
      Admit(c);
      return Ok(c);
    }

    /** The part of Update and Patch after the incoming object is known. */
    method ReplaceLocked(k: Key, incoming: Object, isStatus: bool) returns (r: Result<Unstructured, Error>)
      requires Valid() && k in data && k.gvr in resources
      modifies this`rv, this`data, this`history, this`subs, this`channels, this`log, this`outside, this`recorded, persist
      ensures Valid() && (old(Intact()) ==> Intact()) && (old(OnDisk()) ==> OnDisk())
      ensures Gives(StoreSpec.Replace(old(Model()), k, incoming, isStatus), r)
      ensures Told(r.Ok?, old(channels), old(subs)) && (r.Ok? ==> fresh(Latest().obj))
      ensures Stored(r.Ok?, k, old(DiskNow()))
      ensures r.Ok? ==> fresh(r.value)
      ensures outside >= old(outside)
    {
      var current := data[k].content;
      if ResourceVersion(incoming) != "" && ResourceVersion(incoming) != ResourceVersion(current) {
        return Err(Conflict);
      }
      var merged := WithRV(MergeForUpdate(current, incoming, isStatus), rv + 1);
      assert StoreSpec.Replace(Model(), k, incoming, isStatus) ==
        Outcome(Commit(Model(), k, Some(merged), Event(Modified, k.gvr, merged, rv + 1)), Ok(merged));
      r := Commits(k, merged, Modified);
    }

    method Update(gvr: GVR, obj: Unstructured, isStatus: bool) returns (r: Result<Unstructured, Error>)
      requires Valid() && obj !in data.Values
      modifies this`rv, this`data, this`history, this`subs, this`channels, this`log, this`outside, this`recorded, persist
      ensures Valid() && (old(Intact()) ==> Intact()) && (old(OnDisk()) ==> OnDisk())
      ensures Gives(StoreSpec.Update(old(Model()), gvr, obj.content, isStatus), r)
      ensures Told(r.Ok?, old(channels), old(subs)) && (r.Ok? ==> fresh(Latest().obj))
      ensures Stored(r.Ok?, KeyOf(resources, gvr, obj.content), old(DiskNow()))
      ensures r.Ok? ==> fresh(r.value)
      ensures obj in outside && outside >= old(outside)
    {
      Admit(obj);
      if gvr !in resources {
        return Err(NotRegistered);
      }
      var o := obj.content;
      var namespace := if resources[gvr] then Namespace(o) else "";
      var k := KeyFor(resources, gvr, namespace, Name(o));
      if k !in data {
        return Err(NotFound);
      }
      r := ReplaceLocked(k, o, isStatus);
    }

    /** Patch with a merge patch; the other patch types differ only in how the document is patched. */
    method Patch(gvr: GVR, namespace: string, name: string, patch: Json, isStatus: bool)
      returns (r: Result<Unstructured, Error>)
      requires Valid()
      modifies this`rv, this`data, this`history, this`subs, this`channels, this`log, this`outside, this`recorded, persist
      ensures Valid() && (old(Intact()) ==> Intact()) && (old(OnDisk()) ==> OnDisk())
      ensures Gives(StoreSpec.Patch(old(Model()), gvr, namespace, name, patch, isStatus), r)
      ensures Told(r.Ok?, old(channels), old(subs)) && (r.Ok? ==> fresh(Latest().obj))
      ensures Stored(r.Ok?, KeyFor(resources, gvr, namespace, name), old(DiskNow()))
      ensures r.Ok? ==> fresh(r.value)
      ensures outside >= old(outside)
    {
      if gvr !in resources {
        return Err(NotRegistered);
      }
      var k := KeyFor(resources, gvr, namespace, name);
      if k !in data {
        return Err(NotFound);
      }
      var doc := MergePatch(Obj(data[k].content), patch);
      if !doc.Obj? || Kind(doc.fields) == "" {
        return Err(Internal);
      }
      r := ReplaceLocked(k, doc.fields, isStatus);
    }

    /** The critical section of Delete; the hook runs on a copy after the lock is released. */
    method DeleteLocked(gvr: GVR, namespace: string, name: string) returns (r: Result<Unstructured, Error>)
      requires Valid()
      modifies this`rv, this`data, this`history, this`subs, this`channels, this`log, this`outside, this`recorded, persist
      ensures Valid() && (old(Intact()) ==> Intact()) && (old(OnDisk()) ==> OnDisk())
      ensures Gives(StoreSpec.Delete(old(Model()), gvr, namespace, name), r)
      ensures Told(r.Ok?, old(channels), old(subs)) && (r.Ok? ==> fresh(Latest().obj))
      ensures Stored(r.Ok?, KeyFor(resources, gvr, namespace, name), old(DiskNow()))
      ensures r.Ok? ==> fresh(r.value)
      ensures outside >= old(outside)
    {
      if gvr !in resources {
        return Err(NotRegistered);
      }
      var k := KeyFor(resources, gvr, namespace, name);
      if k !in data {
        return Err(NotFound);
      }
      var deleted := WithRV(data[k].content, rv + 1);
      assert StoreSpec.Delete(Model(), gvr, namespace, name) ==
        Outcome(Commit(Model(), k, None, Event(Deleted, gvr, deleted, rv + 1)), Ok(deleted));
      r := RemoveAndEmit(k, deleted);
    }

    method RemoveAndEmit(k: Key, deleted: Object) returns (r: Result<Unstructured, Error>)
      requires Valid() && k in data && k.gvr in resources
      modifies this`rv, this`data, this`history, this`subs, this`channels, this`log, this`outside, this`recorded, persist
      ensures Valid() && (old(Intact()) ==> Intact()) && (old(OnDisk()) ==> OnDisk())
      ensures Told(true, old(channels), old(subs)) && fresh(Latest().obj) && Stored(true, k, old(DiskNow()))
      ensures r.Ok? && fresh(r.value) && outside >= old(outside)
      ensures var ev := Event(Deleted, k.gvr, deleted, old(rv) + 1);
        Gives(Outcome(Commit(old(Model()), k, None, ev), Ok(deleted)), r)
    {
      ghost var m, disk := Model(), DiskNow();
      var c := RemoveCopy(k, deleted);
      IsRemoval(m, Model(), k, Event(Deleted, k.gvr, deleted, rv));
      if persist != null && ParseableTypes(resources) && old(OnDisk()) {
        WroteKeepsMatch(resources, disk, m.data, m.rv, k, Event(Deleted, k.gvr, deleted, rv));
      }
      return Ok(c);
    }

    method RemoveCopy(k: Key, deleted: Object) returns (r: Unstructured)
      requires Valid() && k in data
      modifies this`rv, this`data, this`history, this`subs, this`channels, this`log, this`outside, this`recorded, persist
      ensures Valid() && (old(Intact()) ==> Intact())
      ensures Announced(old(channels), old(subs)) && fresh(Latest().obj)
      ensures fresh(r) && r.content == deleted && r in outside && outside >= old(outside)
      ensures ReadObjects(data) == old(ReadObjects(data)) - {k} && rv == old(rv) + 1
      ensures var ev := Event(Deleted, k.gvr, deleted, rv);
        log == old(log) + [ev] && recorded == Trim(old(recorded) + [ev], histCap)
      ensures persist != null ==> persist.buckets == Removed(old(persist.buckets), k.gvr, k.path, rv)
    {
      ghost var before := ReadObjects(data);
      r := RemoveAndAnnounce(k, deleted);
      RemovedReads(before, k);
    }

    lemma RemovedReads(before: map<Key, Object>, k: Key)
      requires data.Keys == before.Keys - {k} && forall x :: x in data ==> data[x].content == before[x]
      ensures ReadObjects(data) == before - {k}
    {
    }

    static lemma IsRemoval(m: State, m2: State, k: Key, ev: Event)
      requires m2.resources == m.resources && m2.data == m.data - {k} && m2.rv == m.rv + 1
      requires m2.history == Trim(m.history + [ev], m.histCap) && m2.histCap == m.histCap
      requires m2.base == m.base && m2.baseRV == m.baseRV && m2.log == m.log + [ev]
      ensures m2 == Commit(m, k, None, ev)
    {
    }

    method RemoveAndAnnounce(k: Key, deleted: Object) returns (r: Unstructured)
      requires Valid() && k in data
      modifies this`rv, this`data, this`history, this`subs, this`channels, this`log, this`outside, this`recorded, persist
      ensures Valid() && (old(Intact()) ==> Intact())
      ensures Announced(old(channels), old(subs)) && fresh(Latest().obj)
      ensures fresh(r) && r.content == deleted && r in outside && outside >= old(outside)
      ensures data == old(data) - {k} && rv == old(rv) + 1
      ensures var ev := Event(Deleted, k.gvr, deleted, rv);
        log == old(log) + [ev] && recorded == Trim(old(recorded) + [ev], histCap)
      ensures persist != null ==> persist.buckets == Removed(old(persist.buckets), k.gvr, k.path, rv)
    {
      rv := rv + 1;
      RemoveLocked(k);
      r := AnnounceRemoval(k.gvr, deleted);
    }

    method AnnounceRemoval(gvr: GVR, deleted: Object) returns (r: Unstructured)
      requires Valid()
      modifies this`history, this`subs, this`channels, this`log, this`outside, this`recorded
      ensures Valid() && (old(Intact()) ==> Intact())
      ensures Announced(old(channels), old(subs)) && fresh(Latest().obj)
      ensures fresh(r) && r.content == deleted && r in outside && outside >= old(outside)
      ensures var ev := Event(Deleted, gvr, deleted, rv);
        log == old(log) + [ev] && recorded == Trim(old(recorded) + [ev], histCap)
    {
      var o := new Unstructured(deleted);
      r := Announce(Deleted, gvr, o);
    }

    method RemoveLocked(k: Key)
      modifies this`data, persist
      ensures data == old(data) - {k}
      ensures persist != null ==> persist.buckets == Removed(old(persist.buckets), k.gvr, k.path, rv)
    {
      data := data - {k};
      if persist != null {
        persist.RemoveObject(k.gvr, k.path, rv);
      }
    }

    /** Copies of what List sees, in some iteration order of the map; keys names each item's key. */
    method List(gvr: GVR, namespace: string, matches: Object -> bool)
      returns (r: Result<seq<Unstructured>, Error>, listRV: nat, ghost keys: seq<Key>)
      requires Valid()
      modifies this`outside
      ensures Valid() && (old(Intact()) ==> Intact()) && Model() == old(Model())
      ensures r.Err? <==> gvr !in resources
      ensures r.Ok? ==>
        var listed := Listed(Model(), gvr, namespace, matches);
        && listRV == rv && |keys| == |r.value|
        && (forall i, j :: 0 <= i < j < |keys| ==> keys[i] != keys[j])
        && (forall k :: k in keys <==> k in listed)
        && (forall i :: 0 <= i < |keys| ==> fresh(r.value[i]) && r.value[i] in outside && r.value[i].content == listed[keys[i]])
    {
      keys := [];
      if gvr !in resources {
        return Err(NotRegistered), 0, [];
      }
      ghost var listed := Listed(Model(), gvr, namespace, matches);
      var items: seq<Unstructured> := [];
      var todo := data.Keys;
      while todo != {}
        invariant outside == old(outside) && todo <= data.Keys && |keys| == |items|
        invariant forall i, j :: 0 <= i < j < |keys| ==> keys[i] != keys[j]
        invariant forall k :: k in keys <==> k in listed && k !in todo
        invariant forall i :: 0 <= i < |keys| ==> fresh(items[i]) && items[i].content == listed[keys[i]]
        decreases |todo|
      {
        var k :| k in todo;
        todo := todo - {k};
        var o := data[k].content;
        if k.gvr == gvr && InNamespace(resources, gvr, namespace, o) && matches(o) {
          var c := data[k].DeepCopy();
          items, keys := items + [c], keys + [k];
        }
      }
      AdmitAll(items);
      return Ok(items), rv, keys;
    }

    ghost method AdmitAll(objs: seq<Unstructured>)
      requires Valid() && forall o :: o in objs ==> o !in data.Values
      modifies this`outside
      ensures Valid() && outside == old(outside) + (set o | o in objs)
      ensures Model() == old(Model()) && (old(Intact()) ==> Intact())
    {
      outside := outside + set o | o in objs;
    }

    /** Registration of a subscription: a fresh id with an open, empty channel. */
    method Subscribe(gvr: GVR) returns (id: nat)
      requires Valid()
      modifies this`subs, this`channels, this`nextSub
      ensures Valid() && id == old(nextSub) && nextSub == id + 1 && id !in old(channels)
      ensures channels == old(channels)[id := Channel(gvr, [], false)] && subs == old(subs) + {id}
    {
      id := nextSub;
      channels := channels[id := Channel(gvr, [], false)];
      nextSub := nextSub + 1;
      subs := subs + {id};
    }

    /** removeSub: unregister, leaving the channel to whoever still drains it. */
    method RemoveSub(id: nat)
      requires Valid()
      modifies this`subs
      ensures Valid() && subs == old(subs) - {id}
    {
      if id in subs {
        subs := subs - {id};
      }
    }

    /** Receive the next buffered event of a subscription. */
    method Receive(id: nat) returns (e: Ev)
      requires Valid() && id in channels && channels[id].buffer != []
      modifies this`channels
      ensures Valid() && e == old(channels)[id].buffer[0] && e.obj in outside
      ensures channels == old(channels)[id := old(channels)[id].(buffer := old(channels)[id].buffer[1..])]
    {
      e := channels[id].buffer[0];
      channels := channels[id := channels[id].(buffer := channels[id].buffer[1..])];
    }

    /**
     * Fill a store that has written nothing yet; objects of unregistered types are skipped. The
     * nested loops over types and paths are one loop over keys here.
     */
    method LoadFrom(snap: map<GVR, map<string, Object>>) returns (r: Result<(), Error>)
      requires Valid() && log == []
      modifies this`data, this`base
      ensures Valid() && (old(Intact()) ==> Intact())
      ensures r.Ok? <==> forall k :: k in Restorable(resources, snap) ==> Readable(Restorable(resources, snap)[k])
      ensures r.Ok? ==>
        var restored := old(ReadObjects(data)) + Restorable(resources, snap);
        Model() == old(Model()).(data := restored, base := restored)
      ensures r.Ok? && old(data) == map[] && FromDisk(snap) ==> OnDisk()
    {
      var objs := Restorable(resources, snap);
      var filled;
      r, filled := ReadAll(objs);
      ghost var had := ReadObjects(data);
      Fill(filled);
      RestoredOnDisk(had, snap);
    }

    lemma RestoredOnDisk(had: map<Key, Object>, snap: map<GVR, map<string, Object>>)
      ensures FromDisk(snap) && had == map[] && ReadObjects(data) == had + Restorable(resources, snap) ==> OnDisk()
    {
      if FromDisk(snap) && ParseableTypes(resources) {
        LoadedMatches(resources, persist.buckets);
        assert map[] + Restorable(resources, snap) == Restorable(resources, snap);
      }
    }

    /** The snapshot is what the disk loads as, and the store was started at the disk's version. */
    ghost predicate FromDisk(snap: map<GVR, map<string, Object>>)
      reads `resources, `rv, `persist, persist
    {
      && persist != null && HoldsDocs(resources, persist.buckets)
      && snap == Loaded(persist.buckets) && rv == DiskRV(persist.buckets)
    }

    /** Read the objects back, up to the first that cannot be. */
    static method ReadAll(objs: map<Key, Object>) returns (r: Result<(), Error>, filled: map<Key, Unstructured>)
      ensures forall k :: k in filled ==> fresh(filled[k])
      ensures r.Ok? <==> forall k :: k in objs ==> Readable(objs[k])
      ensures r.Ok? ==> ReadObjects(filled) == objs
    {
      var todo := objs.Keys;
      filled := map[];
      while todo != {}
        invariant todo <= objs.Keys && filled.Keys == objs.Keys - todo
        invariant forall k :: k in filled ==> fresh(filled[k])
        invariant forall k :: k in filled ==> filled[k].content == objs[k] && Readable(objs[k])
        decreases |todo|
      {
        var k :| k in todo;
        todo := todo - {k};
        if Kind(objs[k]) == "" {
          assert !Readable(objs[k]);
          return Err(Internal), filled;
        }
        var u := new Unstructured(objs[k]);
        filled := filled[k := u];
      }
      ReadsBack(filled, objs);
      return Ok(()), filled;
    }

    static lemma ReadsBack(filled: map<Key, Unstructured>, objs: map<Key, Object>)
      requires filled.Keys == objs.Keys && forall k :: k in filled ==> filled[k].content == objs[k]
      ensures ReadObjects(filled) == objs
    {
    }

    /** The objects read so far, filed over what the map held. */
    method Fill(filled: map<Key, Unstructured>)
      requires Valid() && log == [] && outside !! filled.Values
      modifies this`data, this`base
      ensures Valid() && (old(Intact()) ==> Intact())
      ensures var restored := old(ReadObjects(data) + ReadObjects(filled));
        Model() == old(Model()).(data := restored, base := restored)
    {
      ghost var m := Model();
      ghost var had, more := ReadObjects(data), ReadObjects(filled);
      Install(filled);
      base := had + more;
      IsFilled(m, Model(), had + more);
    }

    /** Field by field, the restored state. */
    static lemma IsFilled(m: State, m2: State, restored: map<Key, Object>)
      requires m2.data == restored && m2.base == restored && m2.resources == m.resources && m2.rv == m.rv
      requires m2.history == m.history && m2.histCap == m.histCap && m2.baseRV == m.baseRV && m2.log == m.log
      ensures m2 == m.(data := restored, base := restored)
    {
    }

    method Install(filled: map<Key, Unstructured>)
      requires Valid() && outside !! filled.Values
      modifies this`data
      ensures Valid() && (old(Intact()) ==> Intact())
      ensures ReadObjects(data) == old(ReadObjects(data) + ReadObjects(filled))
    {
      UnionReads(data, filled);
      data := data + filled;
    }
  }
}
