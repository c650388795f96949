/**
 * The watch protocol as a state machine: writers commit and fan out, a watch registers atomically
 * with its bootstrap, and each pump moves one event at a time, in any interleaving.
 */
module Watch {
  import opened Prelude
  import opened Objects
  import opened StoreSpec
  import opened StoreRuns
  import Decimal

  const BUFFER: nat := 512

  /** The selectors of a watch are any predicate on objects. */
  datatype WatchOptions = WatchOptions(namespace: string, selector: Object -> bool, startRV: nat, hasStartRV: bool)

  // ---- The bootstrap ----

  function OldestHistoryRV(s: State): nat {
    if s.history == [] then 0 else s.history[0].rv
  }

  predicate ReplaysHistory(s: State, opts: WatchOptions) {
    opts.hasStartRV && opts.startRV > 0 && (opts.startRV >= OldestHistoryRV(s) || s.history == [])
  }

  function NewerThan(startRV: nat, gvr: GVR): Event -> bool {
    (e: Event) => e.rv > startRV && e.gvr == gvr
  }

  /** One ADDED event for each listed key that passes the namespace and version tests. */
  ghost function Snapshot(resources: map<GVR, bool>, data: map<Key, Object>, opts: WatchOptions,
      order: seq<Key>): seq<Event>
    requires forall i :: 0 <= i < |order| ==> order[i] in data
  {
    if order == [] then [] else
    var k := order[|order| - 1];
    var rv := Decimal.ParseRV(ResourceVersion(data[k]));
    Snapshot(resources, data, opts, order[..|order| - 1]) +
    (if InNamespace(resources, k.gvr, opts.namespace, data[k])
        && !(opts.hasStartRV && opts.startRV > 0 && rv <= opts.startRV)
     then [Event(Added, k.gvr, data[k], rv)] else [])
  }

  /** order runs through the keys of one resource type, each once: some iteration order of the map. */
  ghost predicate Enumerates(order: seq<Key>, data: map<Key, Object>, gvr: GVR) {
    && (forall i, j :: 0 <= i < j < |order| ==> order[i] != order[j])
    && (forall k :: k in order <==> k in data && k.gvr == gvr)
  }

  ghost function Bootstrap(s: State, gvr: GVR, opts: WatchOptions, order: seq<Key>): seq<Event>
    requires Enumerates(order, s.data, gvr)
  {
    if ReplaysHistory(s, opts) then Filter(NewerThan(opts.startRV, gvr), s.history)
    else Snapshot(s.resources, s.data, opts, order)
  }

  // ---- Watchers ----

  datatype Phase = Running | Leaving | Unregistered | Finished

  /**
   * What a watch was granted when it registered. since and first record the length of the log and
   * the matching bootstrap at that moment; the source keeps neither.
   */
  datatype Terms = Terms(gvr: GVR, opts: WatchOptions, currentRV: nat, since: nat, first: seq<Event>)

  /** A subscription together with the pump that drains it. */
  datatype Watcher = Watcher(
    terms: Terms,
    bootstrap: seq<Event>,
    buffer: seq<Event>,
    closed: bool,
    registered: bool,
    hand: Option<Event>,
    out: seq<Event>,
    phase: Phase)

  predicate Matches(resources: map<GVR, bool>, gvr: GVR, opts: WatchOptions, e: Event) {
    InNamespace(resources, gvr, opts.namespace, e.obj) && opts.selector(e.obj)
  }

  ghost function Chooser(resources: map<GVR, bool>, gvr: GVR, opts: WatchOptions): Event -> bool {
    (e: Event) => e.gvr == gvr && Matches(resources, gvr, opts, e)
  }

  ghost function Selected(resources: map<GVR, bool>, gvr: GVR, opts: WatchOptions, events: seq<Event>): seq<Event> {
    Filter(Chooser(resources, gvr, opts), events)
  }

  ghost function Register(s: State, gvr: GVR, opts: WatchOptions, order: seq<Key>): Watcher
    requires Enumerates(order, s.data, gvr)
  {
    var b := Bootstrap(s, gvr, opts, order);
    Watcher(Terms(gvr, opts, s.rv, |s.log|, Selected(s.resources, gvr, opts, b)), b, [], false, true, None, [], Running)
  }

  /** The non-blocking send of emitLocked: a full buffer closes the channel and drops the subscription. */
  function Offer(w: Watcher, e: Event): Watcher {
    if !w.registered || w.terms.gvr != e.gvr then w
    else if |w.buffer| < BUFFER then w.(buffer := w.buffer + [e])
    else w.(closed := true, registered := false)
  }

  /** The pump takes its next event in hand, skipping what its filters reject. */
  ghost function Take(resources: map<GVR, bool>, w: Watcher): Watcher {
    if w.bootstrap != [] then
      var e := w.bootstrap[0];
      w.(bootstrap := w.bootstrap[1..], hand := if Matches(resources, w.terms.gvr, w.terms.opts, e) then Some(e) else None)
    else if w.buffer != [] then
      var e := w.buffer[0];
      w.(buffer := w.buffer[1..],
         hand := if e.rv > w.terms.currentRV && Matches(resources, w.terms.gvr, w.terms.opts, e) then Some(e) else None)
    else if w.closed then w.(phase := Leaving)
    else w
  }

  function Deliver(w: Watcher): Watcher
    requires w.hand.Some?
  {
    w.(out := w.out + [w.hand.value], hand := None)
  }

  // ---- The system ----

  datatype System = System(st: State, watchers: seq<Watcher>)

  datatype Step =
    | Write(op: Op)
    | StartWatch(gvr: GVR, opts: WatchOptions, order: seq<Key>)
    | TakeNext(i: nat)
    | DeliverHand(i: nat)
    | Cancel(i: nat)
    | RemoveSub(i: nat)
    | CloseOut(i: nat)

  ghost predicate Enabled(sys: System, step: Step) {
    match step
    case Write(op) => Admissible(sys.st, op)
    case StartWatch(gvr, opts, order) => gvr in sys.st.resources && Enumerates(order, sys.st.data, gvr)
    case TakeNext(i) => i < |sys.watchers| && sys.watchers[i].phase == Running && sys.watchers[i].hand.None?
    case DeliverHand(i) => i < |sys.watchers| && sys.watchers[i].phase == Running && sys.watchers[i].hand.Some?
    case Cancel(i) => i < |sys.watchers| && sys.watchers[i].phase == Running
    case RemoveSub(i) => i < |sys.watchers| && sys.watchers[i].phase == Leaving
    case CloseOut(i) => i < |sys.watchers| && sys.watchers[i].phase == Unregistered
  }

  ghost function FanOut(watchers: seq<Watcher>, e: Event): seq<Watcher> {
    seq(|watchers|, i requires 0 <= i < |watchers| => Offer(watchers[i], e))
  }

  ghost function Do(sys: System, step: Step): System
    requires Enabled(sys, step)
  {
    match step
    case Write(op) =>
      var o := Apply(sys.st, op);
      if o.result.Err? || |o.state.log| == 0 then System(o.state, sys.watchers)
      else System(o.state, FanOut(sys.watchers, o.state.log[|o.state.log| - 1]))
    case StartWatch(gvr, opts, order) => System(sys.st, sys.watchers + [Register(sys.st, gvr, opts, order)])
    case TakeNext(i) => sys.(watchers := sys.watchers[i := Take(sys.st.resources, sys.watchers[i])])
    case DeliverHand(i) => sys.(watchers := sys.watchers[i := Deliver(sys.watchers[i])])
    case Cancel(i) => sys.(watchers := sys.watchers[i := sys.watchers[i].(phase := Leaving)])
    case RemoveSub(i) => sys.(watchers := sys.watchers[i := sys.watchers[i].(phase := Unregistered, registered := false)])
    case CloseOut(i) => sys.(watchers := sys.watchers[i := sys.watchers[i].(phase := Finished)])
  }

  ghost predicate Next(a: System, b: System) {
    exists step :: Enabled(a, step) && b == Do(a, step)
  }

  ghost predicate Behavior(trace: seq<System>) {
    && |trace| > 0 && Inv(trace[0].st) && trace[0].watchers == []
    && (forall i :: 0 <= i < |trace| - 1 ==> Next(trace[i], trace[i + 1]))
  }

  // ---- What a watcher is owed ----

  /** The matching bootstrap, then every matching event committed since registration. */
  ghost function Owed(st: State, t: Terms): seq<Event>
    requires t.since <= |st.log|
  {
    t.first + Selected(st.resources, t.gvr, t.opts, st.log[t.since..])
  }

  function InHand(w: Watcher): seq<Event> {
    if w.hand.Some? then [w.hand.value] else []
  }

  /** What has been delivered and what is still on its way through the pump. */
  ghost function Underway(st: State, w: Watcher): seq<Event> {
    w.out + InHand(w) + Selected(st.resources, w.terms.gvr, w.terms.opts, w.bootstrap)
                      + Selected(st.resources, w.terms.gvr, w.terms.opts, w.buffer)
  }

  function DataAt(s: State, n: nat): map<Key, Object>
    requires n <= |s.log|
  {
    Replay(s.resources, s.base, s.log[..n])
  }

  /** One resource type in one namespace (or all, for an empty namespace). */
  function View(resources: map<GVR, bool>, data: map<Key, Object>, gvr: GVR, namespace: string): map<Key, Object> {
    map k | k in data && k.gvr == gvr && InNamespace(resources, gvr, namespace, data[k]) :: data[k]
  }

  ghost predicate SelectsAll(opts: WatchOptions) { forall o :: opts.selector(o) }

  /** A watch from the current state: it names no resource version, or zero. */
  predicate FromSnapshot(t: Terms) { !t.opts.hasStartRV || t.opts.startRV == 0 }

  /** A watch that resumed at or above the oldest version retained when it registered. */
  predicate Resumed(st: State, t: Terms) {
    && t.opts.hasStartRV && t.opts.startRV > 0 && 0 < t.since
    && st.baseRV + 1 + (if t.since > st.histCap then t.since - st.histCap else 0) <= t.opts.startRV <= t.currentRV
  }

  ghost predicate SnapshotTerms(st: State, t: Terms)
    requires t.since <= |st.log|
  {
    FromSnapshot(t) && SelectsAll(t.opts) ==>
      Replay(st.resources, map[], t.first) == View(st.resources, DataAt(st, t.since), t.gvr, t.opts.namespace)
  }

  ghost predicate ResumedTerms(st: State, t: Terms)
    requires t.since <= |st.log| && t.currentRV == st.baseRV + t.since
  {
    Resumed(st, t) ==>
      t.first == Selected(st.resources, t.gvr, t.opts, st.log[t.opts.startRV - st.baseRV .. t.since])
  }

  ghost predicate TermsInv(st: State, t: Terms) {
    && t.since <= |st.log| && t.currentRV == st.baseRV + t.since
    && (forall e :: e in t.first ==> e.rv <= t.currentRV)
    && SnapshotTerms(st, t) && ResumedTerms(st, t)
  }

  ghost predicate FlowInv(st: State, w: Watcher)
    requires w.terms.since <= |st.log|
  {
    && w.out <= Owed(st, w.terms)
    && (w.phase.Running? ==> Underway(st, w) <= Owed(st, w.terms))
    && (w.phase.Running? && w.registered ==> Underway(st, w) == Owed(st, w.terms))
    && (w.phase.Running? && !w.registered ==> w.closed)
    && (w.registered ==> !w.closed && (w.phase.Running? || w.phase.Leaving?))
    && |w.buffer| <= BUFFER
    && (forall e :: e in w.bootstrap ==> e.gvr == w.terms.gvr)
    && (forall e :: e in w.buffer ==> e.gvr == w.terms.gvr && e.rv > w.terms.currentRV)
  }

  ghost predicate WatcherInv(st: State, w: Watcher) {
    TermsInv(st, w.terms) && FlowInv(st, w)
  }

  ghost predicate SystemInv(sys: System) {
    Inv(sys.st) && forall i :: 0 <= i < |sys.watchers| ==> WatcherInv(sys.st, sys.watchers[i])
  }

  // ---- Registration ----

  lemma {:induction false} SnapshotEvents(resources: map<GVR, bool>, data: map<Key, Object>, opts: WatchOptions,
      order: seq<Key>, rv: nat)
    requires WellFormedBase(resources, data, rv)
    requires forall i :: 0 <= i < |order| ==> order[i] in data
    ensures forall e :: e in Snapshot(resources, data, opts, order) ==>
      e.rv <= rv && Key(e.gvr, Path(Namespaced(resources, e.gvr), Namespace(e.obj), Name(e.obj))) in order
  {
    if order != [] {
      SnapshotEvents(resources, data, opts, order[..|order| - 1], rv);
      var k := order[|order| - 1];
      assert WellKeyed(resources, k, data[k]);
      var n: nat :| n <= rv && StampedBy(data[k], n);
      Decimal.FormatUintValue(n);
    }
  }

  lemma {:induction false} FilterAll<T>(keep: T -> bool, s: seq<T>)
    requires forall x :: x in s ==> keep(x)
    ensures Filter(keep, s) == s
  {
    if s != [] {
      FilterAll(keep, s[1..]);
      assert s == [s[0]] + s[1..];
    }
  }

  lemma {:induction false} SnapshotPasses(resources: map<GVR, bool>, data: map<Key, Object>, gvr: GVR,
      opts: WatchOptions, order: seq<Key>)
    requires forall i :: 0 <= i < |order| ==> order[i] in data && order[i].gvr == gvr
    ensures forall e :: e in Snapshot(resources, data, opts, order) ==>
      e.gvr == gvr && InNamespace(resources, gvr, opts.namespace, e.obj)
  {
    if order != [] {
      SnapshotPasses(resources, data, gvr, opts, order[..|order| - 1]);
    }
  }

  function Among(resources: map<GVR, bool>, data: map<Key, Object>, gvr: GVR, namespace: string,
      order: seq<Key>): map<Key, Object> {
    map k | k in data && k in order && InNamespace(resources, gvr, namespace, data[k]) :: data[k]
  }

  lemma AmongLast(resources: map<GVR, bool>, data: map<Key, Object>, gvr: GVR, namespace: string, order: seq<Key>,
      k: Key)
    requires k in data
    ensures Among(resources, data, gvr, namespace, order + [k]) ==
      if InNamespace(resources, gvr, namespace, data[k]) then Among(resources, data, gvr, namespace, order)[k := data[k]]
      else Among(resources, data, gvr, namespace, order)
  {
  }

  /** Folding the snapshot over nothing gives the listed keys back. */
  lemma {:induction false} SnapshotFolds(resources: map<GVR, bool>, data: map<Key, Object>, gvr: GVR,
      opts: WatchOptions, order: seq<Key>, rv: nat)
    requires WellFormedBase(resources, data, rv)
    requires !opts.hasStartRV || opts.startRV == 0
    requires forall i :: 0 <= i < |order| ==> order[i] in data && order[i].gvr == gvr
    ensures Replay(resources, map[], Snapshot(resources, data, opts, order)) == Among(resources, data, gvr, opts.namespace, order)
  {
    if order != [] {
      var rest, k := order[..|order| - 1], order[|order| - 1];
      SnapshotFolds(resources, data, gvr, opts, rest, rv);
      assert order == rest + [k];
      AmongLast(resources, data, gvr, opts.namespace, rest, k);
      SnapshotFoldsLast(resources, data, opts, rest, k, rv);
    }
  }

  lemma ApplyAdded(resources: map<GVR, bool>, m: map<Key, Object>, k: Key, o: Object, rv: nat)
    requires WellKeyed(resources, k, o)
    ensures ApplyEvent(resources, m, Event(Added, k.gvr, o, rv)) == m[k := o]
  {
  }

  lemma SnapshotFoldsLast(resources: map<GVR, bool>, data: map<Key, Object>, opts: WatchOptions, rest: seq<Key>,
      k: Key, rv: nat)
    requires WellFormedBase(resources, data, rv) && k in data
    requires !opts.hasStartRV || opts.startRV == 0
    requires forall i :: 0 <= i < |rest| ==> rest[i] in data
    ensures var m := Replay(resources, map[], Snapshot(resources, data, opts, rest));
      Replay(resources, map[], Snapshot(resources, data, opts, rest + [k])) ==
        if InNamespace(resources, k.gvr, opts.namespace, data[k]) then m[k := data[k]] else m
  {
    assert (rest + [k])[..|rest|] == rest;
    var e := Event(Added, k.gvr, data[k], Decimal.ParseRV(ResourceVersion(data[k])));
    if InNamespace(resources, k.gvr, opts.namespace, data[k]) {
      assert Snapshot(resources, data, opts, rest + [k]) == Snapshot(resources, data, opts, rest) + [e];
      ReplayAppend(resources, map[], Snapshot(resources, data, opts, rest), e);
      ApplyAdded(resources, Replay(resources, map[], Snapshot(resources, data, opts, rest)), k, data[k], e.rv);
    } else {
      assert Snapshot(resources, data, opts, rest + [k]) == Snapshot(resources, data, opts, rest);
    }
  }

  lemma SnapshotFirst(s: State, gvr: GVR, opts: WatchOptions, order: seq<Key>)
    requires Inv(s) && Enumerates(order, s.data, gvr) && (!opts.hasStartRV || opts.startRV == 0) && SelectsAll(opts)
    ensures Replay(s.resources, map[], Selected(s.resources, gvr, opts, Bootstrap(s, gvr, opts, order)))
         == View(s.resources, s.data, gvr, opts.namespace)
  {
    DataWellFormed(s);
    var b := Snapshot(s.resources, s.data, opts, order);
    SnapshotPasses(s.resources, s.data, gvr, opts, order);
    FilterAll(Chooser(s.resources, gvr, opts), b);
    SnapshotFolds(s.resources, s.data, gvr, opts, order, s.rv);
  }

  lemma {:induction false} FilterFilter(c: Event -> bool, d: Event -> bool, s: seq<Event>)
    requires forall e :: e in s && c(e) ==> d(e)
    ensures Filter(c, Filter(d, s)) == Filter(c, s)
  {
    if s != [] {
      FilterFilter(c, d, s[1..]);
      FilterAppend(c, if d(s[0]) then [s[0]] else [], Filter(d, s[1..]));
    }
  }

  lemma {:induction false} FilterNone<T>(keep: T -> bool, s: seq<T>)
    requires forall x :: x in s ==> !keep(x)
    ensures Filter(keep, s) == []
  {
    if s != [] { FilterNone(keep, s[1..]); }
  }

  /** In a log whose versions count up by one, the events newer than a version are its tail. */
  lemma NewerIsTail(log: seq<Event>, baseRV: nat, d: nat, n: nat, gvr: GVR, c: Event -> bool)
    requires d <= n <= |log|
    requires forall i :: 0 <= i < |log| ==> log[i].rv == baseRV + 1 + i
    requires forall e :: c(e) ==> e.gvr == gvr
    ensures Filter(c, Filter(NewerThan(baseRV + n, gvr), log[d..])) == Filter(c, log[n..])
  {
    var a := NewerThan(baseRV + n, gvr);
    assert log[d..] == log[d..n] + log[n..];
    FilterAppend(a, log[d..n], log[n..]);
    FilterNone(a, log[d..n]) by {
      assert forall i :: 0 <= i < n - d ==> log[d..n][i] == log[d + i];
    }
    assert forall i :: 0 <= i < |log| - n ==> log[n..][i] == log[n + i];
    FilterFilter(c, a, log[n..]);
    assert Filter(a, log[d..]) == Filter(a, log[n..]);
  }

  lemma HistoryIsTail(s: State)
    requires Inv(s) && s.history != []
    ensures var d := |s.log| - |s.history|;
      d >= 0 && s.history == s.log[d..] && OldestHistoryRV(s) == s.baseRV + 1 + d
      && d == if |s.log| > s.histCap then |s.log| - s.histCap else 0
  {
  }

  lemma LogVersions(s: State)
    requires Inv(s)
    ensures s.rv == s.baseRV + |s.log| && forall i :: 0 <= i < |s.log| ==> s.log[i].rv == s.baseRV + 1 + i
  {
  }

  lemma ChooserChecksType(resources: map<GVR, bool>, gvr: GVR, opts: WatchOptions)
    ensures forall e :: Chooser(resources, gvr, opts)(e) ==> e.gvr == gvr
  {
  }

  /** Where a retained version stands in the log, and where the history starts. */
  lemma ResumedPoint(s: State, opts: WatchOptions)
    requires Inv(s) && ReplaysHistory(s, opts) && s.history != [] && opts.startRV <= s.rv
    ensures |s.history| <= |s.log| && s.history == s.log[|s.log| - |s.history|..]
    ensures |s.log| - |s.history| <= opts.startRV - s.baseRV <= |s.log|
  {
    HistoryIsTail(s);
  }

  /** Replaying the history after a retained version is replaying the log after it. */
  lemma ResumedFirst(s: State, gvr: GVR, opts: WatchOptions)
    requires Inv(s) && ReplaysHistory(s, opts) && s.history != [] && opts.startRV <= s.rv
    ensures s.baseRV <= opts.startRV && opts.startRV - s.baseRV <= |s.log|
    ensures Selected(s.resources, gvr, opts, Filter(NewerThan(opts.startRV, gvr), s.history))
         == Selected(s.resources, gvr, opts, s.log[opts.startRV - s.baseRV..])
  {
    ResumedPoint(s, opts);
    LogVersions(s);
    ResumedFrom(s, gvr, opts);
  }

  lemma ResumedFrom(s: State, gvr: GVR, opts: WatchOptions)
    requires |s.history| <= |s.log| && s.history == s.log[|s.log| - |s.history|..]
    requires |s.log| - |s.history| <= opts.startRV - s.baseRV <= |s.log|
    requires forall i :: 0 <= i < |s.log| ==> s.log[i].rv == s.baseRV + 1 + i
    ensures Selected(s.resources, gvr, opts, Filter(NewerThan(opts.startRV, gvr), s.history))
         == Selected(s.resources, gvr, opts, s.log[opts.startRV - s.baseRV..])
  {
    SelectedTail(s.resources, s.log, s.baseRV, |s.log| - |s.history|, opts.startRV - s.baseRV, gvr, opts);
  }

  lemma SelectedTail(resources: map<GVR, bool>, log: seq<Event>, baseRV: nat, d: nat, n: nat, gvr: GVR,
      opts: WatchOptions)
    requires d <= n <= |log| && forall i :: 0 <= i < |log| ==> log[i].rv == baseRV + 1 + i
    ensures Selected(resources, gvr, opts, Filter(NewerThan(baseRV + n, gvr), log[d..])) == Selected(resources, gvr, opts, log[n..])
  {
    ChooserChecksType(resources, gvr, opts);
    NewerIsTail(log, baseRV, d, n, gvr, Chooser(resources, gvr, opts));
  }

  lemma BootstrapEvents(s: State, gvr: GVR, opts: WatchOptions, order: seq<Key>)
    requires Inv(s) && Enumerates(order, s.data, gvr)
    ensures forall e :: e in Bootstrap(s, gvr, opts, order) ==> e.gvr == gvr && e.rv <= s.rv
  {
    DataWellFormed(s);
    forall e | e in Bootstrap(s, gvr, opts, order) ensures e.gvr == gvr && e.rv <= s.rv {
      if ReplaysHistory(s, opts) {
        FilterMember(NewerThan(opts.startRV, gvr), s.history, e);
      } else {
        SnapshotPasses(s.resources, s.data, gvr, opts, order);
        SnapshotEvents(s.resources, s.data, opts, order, s.rv);
      }
    }
  }

  lemma RegisterTerms(s: State, gvr: GVR, opts: WatchOptions, order: seq<Key>)
    requires Inv(s) && Enumerates(order, s.data, gvr)
    ensures TermsInv(s, Register(s, gvr, opts, order).terms)
  {
    var t := Register(s, gvr, opts, order).terms;
    var b := Bootstrap(s, gvr, opts, order);
    BootstrapEvents(s, gvr, opts, order);
    forall e | e in t.first ensures e.rv <= t.currentRV {
      FilterMember(Chooser(s.resources, gvr, opts), b, e);
    }
    assert s.log[..t.since] == s.log;
    if FromSnapshot(t) && SelectsAll(opts) {
      SnapshotFirst(s, gvr, opts, order);
    }
    if Resumed(s, t) {
      ResumedFirst(s, gvr, opts);
      assert s.log[opts.startRV - s.baseRV .. t.since] == s.log[opts.startRV - s.baseRV..];
    }
  }

  lemma RegisterKeepsInv(s: State, gvr: GVR, opts: WatchOptions, order: seq<Key>)
    requires Inv(s) && Enumerates(order, s.data, gvr)
    ensures WatcherInv(s, Register(s, gvr, opts, order))
  {
    var w := Register(s, gvr, opts, order);
    RegisterTerms(s, gvr, opts, order);
    BootstrapEvents(s, gvr, opts, order);
    assert s.log[w.terms.since..] == [];
    assert Owed(s, w.terms) == w.terms.first;
    assert Underway(s, w) == w.terms.first;
  }

  // ---- Each step keeps what a watcher is owed ----

  lemma SelectedLast(resources: map<GVR, bool>, gvr: GVR, opts: WatchOptions, a: seq<Event>, e: Event)
    ensures Selected(resources, gvr, opts, a + [e])
         == Selected(resources, gvr, opts, a) + Selected(resources, gvr, opts, [e])
  {
    FilterAppend(Chooser(resources, gvr, opts), a, [e]);
  }

  lemma SelectedHead(resources: map<GVR, bool>, gvr: GVR, opts: WatchOptions, a: seq<Event>)
    requires a != [] && a[0].gvr == gvr
    ensures Selected(resources, gvr, opts, a)
         == (if Matches(resources, gvr, opts, a[0]) then [a[0]] else []) + Selected(resources, gvr, opts, a[1..])
  {
  }

  /** What does not depend on the length of the log survives a commit. */
  lemma CommitKeepsTerms(s: State, t: State, terms: Terms)
    requires SameStart(s, t) && |t.log| == |s.log| + 1 && t.log[..|s.log|] == s.log
    requires TermsInv(s, terms)
    ensures TermsInv(t, terms)
    ensures Owed(t, terms) == Owed(s, terms) + Selected(s.resources, terms.gvr, terms.opts, [t.log[|s.log|]])
  {
    var e := t.log[|s.log|];
    assert t.log == s.log + [e];
    assert t.log[terms.since..] == s.log[terms.since..] + [e];
    SelectedLast(s.resources, terms.gvr, terms.opts, s.log[terms.since..], e);
    assert t.log[..terms.since] == s.log[..terms.since];
    if Resumed(t, terms) {
      assert t.log[terms.opts.startRV - t.baseRV .. terms.since] == s.log[terms.opts.startRV - s.baseRV .. terms.since];
    }
  }

  lemma OfferKeepsFlow(s: State, t: State, w: Watcher, e: Event)
    requires w.terms.since <= |s.log| && w.terms.since <= |t.log| && t.resources == s.resources
    requires FlowInv(s, w) && e.rv > w.terms.currentRV
    requires Owed(t, w.terms) == Owed(s, w.terms) + Selected(s.resources, w.terms.gvr, w.terms.opts, [e])
    ensures FlowInv(t, Offer(w, e))
  {
    var w' := Offer(w, e);
    var step := Selected(s.resources, w.terms.gvr, w.terms.opts, [e]);
    if w.registered && w.terms.gvr == e.gvr && |w.buffer| < BUFFER {
      SelectedLast(s.resources, w.terms.gvr, w.terms.opts, w.buffer, e);
      assert Underway(t, w') == Underway(s, w) + step;
    } else {
      assert Underway(t, w') == Underway(s, w);
      if w.terms.gvr != e.gvr {
        FilterNone(Chooser(s.resources, w.terms.gvr, w.terms.opts), [e]);
      }
    }
  }

  lemma OfferKeepsInv(s: State, t: State, w: Watcher)
    requires Inv(t) && SameStart(s, t) && |t.log| == |s.log| + 1 && t.log[..|s.log|] == s.log
    requires WatcherInv(s, w)
    ensures WatcherInv(t, Offer(w, t.log[|s.log|]))
  {
    CommitKeepsTerms(s, t, w.terms);
    OfferKeepsFlow(s, t, w, t.log[|s.log|]);
  }

  lemma TakeBootstrapKeepsUnderway(s: State, w: Watcher)
    requires w.hand.None? && w.bootstrap != [] && w.bootstrap[0].gvr == w.terms.gvr
    ensures Underway(s, Take(s.resources, w)) == Underway(s, w)
  {
    SelectedHead(s.resources, w.terms.gvr, w.terms.opts, w.bootstrap);
  }

  lemma TakeLiveKeepsUnderway(s: State, w: Watcher)
    requires w.hand.None? && w.bootstrap == [] && w.buffer != []
    requires w.buffer[0].gvr == w.terms.gvr && w.buffer[0].rv > w.terms.currentRV
    ensures Underway(s, Take(s.resources, w)) == Underway(s, w)
  {
    SelectedHead(s.resources, w.terms.gvr, w.terms.opts, w.buffer);
  }

  lemma TakeKeepsUnderway(s: State, w: Watcher)
    requires FlowInv.requires(s, w) && FlowInv(s, w) && w.hand.None?
    ensures Underway(s, Take(s.resources, w)) == Underway(s, w)
  {
    if w.bootstrap != [] {
      TakeBootstrapKeepsUnderway(s, w);
    } else if w.buffer != [] {
      TakeLiveKeepsUnderway(s, w);
    }
  }

  lemma TakeKeepsInv(s: State, w: Watcher)
    requires WatcherInv(s, w) && w.phase.Running? && w.hand.None?
    ensures WatcherInv(s, Take(s.resources, w))
  {
    TakeKeepsUnderway(s, w);
  }

  lemma DeliverKeepsInv(s: State, w: Watcher)
    requires WatcherInv(s, w) && w.phase.Running? && w.hand.Some?
    ensures WatcherInv(s, Deliver(w))
  {
    var w' := Deliver(w);
    assert Underway(s, w') == Underway(s, w);
    assert w'.out <= Underway(s, w');
  }

  lemma WriteKeepsInv(sys: System, op: Op)
    requires SystemInv(sys) && Admissible(sys.st, op)
    ensures SystemInv(Do(sys, Write(op)))
  {
    var s, o := sys.st, Apply(sys.st, op);
    ApplyKeepsInv(s, op);
    if o.result.Ok? {
      forall i | 0 <= i < |sys.watchers| ensures WatcherInv(o.state, Offer(sys.watchers[i], o.state.log[|s.log|])) {
        OfferKeepsInv(s, o.state, sys.watchers[i]);
      }
    }
  }

  lemma OneWatcherChanges(sys: System, i: nat, w: Watcher)
    requires SystemInv(sys) && i < |sys.watchers| && WatcherInv(sys.st, w)
    ensures SystemInv(sys.(watchers := sys.watchers[i := w]))
  {
  }

  lemma StepKeepsInv(sys: System, step: Step)
    requires SystemInv(sys) && Enabled(sys, step)
    ensures SystemInv(Do(sys, step))
  {
    match step
    case Write(op) => WriteKeepsInv(sys, op);
    case StartWatch(gvr, opts, order) => RegisterKeepsInv(sys.st, gvr, opts, order);
    case TakeNext(i) =>
      TakeKeepsInv(sys.st, sys.watchers[i]);
      OneWatcherChanges(sys, i, Take(sys.st.resources, sys.watchers[i]));
    case DeliverHand(i) =>
      DeliverKeepsInv(sys.st, sys.watchers[i]);
      OneWatcherChanges(sys, i, Deliver(sys.watchers[i]));
    case Cancel(i) => OneWatcherChanges(sys, i, sys.watchers[i].(phase := Leaving));
    case RemoveSub(i) => OneWatcherChanges(sys, i, sys.watchers[i].(phase := Unregistered, registered := false));
    case CloseOut(i) => OneWatcherChanges(sys, i, sys.watchers[i].(phase := Finished));
  }

  lemma {:induction false} BehaviorKeepsInv(trace: seq<System>, i: nat)
    requires Behavior(trace) && i < |trace|
    ensures SystemInv(trace[i])
  {
    if i > 0 {
      BehaviorKeepsInv(trace, i - 1);
      assert Next(trace[i - 1], trace[i]);
      var step :| Enabled(trace[i - 1], step) && trace[i] == Do(trace[i - 1], step);
      StepKeepsInv(trace[i - 1], step);
    }
  }
}
