/** What every watcher gets, in every interleaving of writers, pumps, drops and cancels. */
module WatchTheorems {
  import opened Prelude
  import opened Objects
  import opened StoreSpec
  import opened StoreRuns
  import opened Watch
  import Decimal

  // ---- Delivery ----

  /**
   * At every point of every behavior, what a watcher has received is a prefix of its matching
   * bootstrap followed by every later matching event; and it is exactly that once a watcher that
   * was not dropped or cancelled has nothing left on its way.
   */
  lemma DeliveredIsPrefix(trace: seq<System>, i: nat, j: nat)
    requires Behavior(trace) && i < |trace| && j < |trace[i].watchers|
    ensures var st, w := trace[i].st, trace[i].watchers[j];
      && w.terms.since <= |st.log| && w.out <= Owed(st, w.terms)
      && (w.phase.Running? && w.registered && w.hand.None? && w.bootstrap == [] && w.buffer == [] ==>
            w.out == Owed(st, w.terms))
  {
    BehaviorKeepsInv(trace, i);
    var st, w := trace[i].st, trace[i].watchers[j];
    assert WatcherInv(st, w);
    if w.bootstrap == [] && w.buffer == [] && w.hand.None? {
      assert Underway(st, w) == w.out;
    }
  }

  /** The watchers of b are those of a and later ones, on the same terms, with at least what they had received. */
  ghost predicate Carried(a: seq<Watcher>, b: seq<Watcher>) {
    |a| <= |b| && forall j :: 0 <= j < |a| ==> b[j].terms == a[j].terms && a[j].out <= b[j].out
  }

  lemma StepCarries(sys: System, step: Step)
    requires Enabled(sys, step)
    ensures Carried(sys.watchers, Do(sys, step).watchers)
  {
  }

  lemma NextCarries(a: System, b: System)
    requires Next(a, b)
    ensures Carried(a.watchers, b.watchers)
  {
    var step :| Enabled(a, step) && b == Do(a, step);
    StepCarries(a, step);
  }

  lemma {:induction false} ChainCarries(ws: seq<seq<Watcher>>, a: nat, b: nat)
    requires a <= b < |ws| && forall i :: 0 <= i < |ws| - 1 ==> Carried(ws[i], ws[i + 1])
    ensures Carried(ws[a], ws[b])
  {
    if a < b {
      ChainCarries(ws, a, b - 1);
      assert Carried(ws[b - 1], ws[b]);
    }
  }

  ghost function AllWatchers(trace: seq<System>): seq<seq<Watcher>> {
    seq(|trace|, i requires 0 <= i < |trace| => trace[i].watchers)
  }

  lemma WatchersCarried(trace: seq<System>)
    requires Behavior(trace)
    ensures forall i :: 0 <= i < |AllWatchers(trace)| - 1 ==> Carried(AllWatchers(trace)[i], AllWatchers(trace)[i + 1])
  {
    forall i | 0 <= i < |trace| - 1 ensures Carried(AllWatchers(trace)[i], AllWatchers(trace)[i + 1]) {
      assert Next(trace[i], trace[i + 1]);
      NextCarries(trace[i], trace[i + 1]);
    }
  }

  /** A watcher's terms never change, and what it received is never taken back or reordered. */
  lemma DeliveriesOnlyGrow(trace: seq<System>, a: nat, b: nat, j: nat)
    requires Behavior(trace) && a <= b < |trace| && j < |trace[a].watchers|
    ensures j < |trace[b].watchers|
    ensures trace[b].watchers[j].terms == trace[a].watchers[j].terms
    ensures trace[a].watchers[j].out <= trace[b].watchers[j].out
  {
    WatchersCarried(trace);
    ChainCarries(AllWatchers(trace), a, b);
  }

  /** Live events arrive with strictly increasing versions, all above every bootstrap event's. */
  lemma DeliveredInOrder(st: State, w: Watcher, x: nat, y: nat)
    requires Inv(st) && WatcherInv(st, w) && x < y < |w.out| && |w.terms.first| <= y
    ensures w.out[x].rv < w.out[y].rv
  {
    LogVersions(st);
    DeliveredInOrderFrom(st, w, x, y);
  }

  lemma DeliveredInOrderFrom(st: State, w: Watcher, x: nat, y: nat)
    requires forall i :: 0 <= i < |st.log| ==> st.log[i].rv == st.baseRV + 1 + i
    requires w.terms.since <= |st.log| && w.terms.currentRV == st.baseRV + w.terms.since
    requires w.out <= Owed(st, w.terms) && forall e :: e in w.terms.first ==> e.rv <= w.terms.currentRV
    requires x < y < |w.out| && |w.terms.first| <= y
    ensures w.out[x].rv < w.out[y].rv
  {
    var t := w.terms;
    var live := st.log[t.since..];
    var c := Chooser(st.resources, t.gvr, t.opts);
    var sel := Filter(c, live);
    assert forall i :: 0 <= i < |live| ==> live[i] == st.log[t.since + i];
    FilterIncreasing(c, live);
    assert w.out[y] == sel[y - |t.first|];
    FilterMember(c, live, w.out[y]);
    if x < |t.first| {
      assert w.out[x] == t.first[x] && w.out[x] in t.first;
    } else {
      assert w.out[x] == sel[x - |t.first|];
    }
  }

  lemma {:induction false} FilterIncreasing(c: Event -> bool, s: seq<Event>)
    requires forall i, j :: 0 <= i < j < |s| ==> s[i].rv < s[j].rv
    ensures forall i, j :: 0 <= i < j < |Filter(c, s)| ==> Filter(c, s)[i].rv < Filter(c, s)[j].rv
  {
    if s != [] {
      FilterIncreasing(c, s[1..]);
      forall e | e in Filter(c, s[1..]) ensures s[0].rv < e.rv {
        FilterMember(c, s[1..], e);
        var i :| 0 <= i < |s[1..]| && s[1..][i] == e;
        assert s[i + 1] == e;
      }
    }
  }

  /** A prefix of a selection is the selection of a prefix that ends where the prefix does. */
  lemma {:induction false} PrefixOfSelection(c: Event -> bool, s: seq<Event>, p: seq<Event>) returns (m: nat)
    requires p <= Filter(c, s)
    ensures m <= |s| && p == Filter(c, s[..m])
    ensures if p == [] then m == 0 else m > 0 && s[m - 1] == p[|p| - 1]
  {
    if p == [] {
      m := 0;
    } else {
      var n := |s| - 1;
      assert s == s[..n] + [s[n]];
      FilterLast(c, s[..n], s[n]);
      if p <= Filter(c, s[..n]) {
        m := PrefixOfSelection(c, s[..n], p);
        assert s[..n][..m] == s[..m];
      } else {
        assert p == Filter(c, s);
        m := |s|;
        assert s[..m] == s;
      }
    }
  }

  /** No gaps: a matching event committed since registration, no newer than a delivered one, was delivered. */
  lemma DeliveredWithoutGaps(st: State, w: Watcher, y: nat, i: nat)
    requires Inv(st) && WatcherInv(st, w) && |w.terms.first| <= y < |w.out|
    requires w.terms.since <= i < |st.log| && st.log[i].rv <= w.out[y].rv
    requires Chooser(st.resources, w.terms.gvr, w.terms.opts)(st.log[i])
    ensures st.log[i] in w.out[|w.terms.first|..y + 1]
  {
    LogVersions(st);
    DeliveredPart(st, w, y);
    SelectionWithoutGaps(st.log, st.baseRV, w.terms.since, Chooser(st.resources, w.terms.gvr, w.terms.opts),
                         w.out[|w.terms.first|..y + 1], i);
  }

  lemma DeliveredPart(st: State, w: Watcher, y: nat)
    requires w.terms.since <= |st.log| && w.out <= Owed(st, w.terms) && |w.terms.first| <= y < |w.out|
    ensures var p := w.out[|w.terms.first|..y + 1];
      p != [] && p <= Selected(st.resources, w.terms.gvr, w.terms.opts, st.log[w.terms.since..]) && p[|p| - 1] == w.out[y]
  {
  }

  lemma SelectionWithoutGaps(log: seq<Event>, baseRV: nat, since: nat, c: Event -> bool, p: seq<Event>, i: nat)
    requires forall x :: 0 <= x < |log| ==> log[x].rv == baseRV + 1 + x
    requires since <= i < |log| && c(log[i]) && p != [] && p <= Filter(c, log[since..]) && log[i].rv <= p[|p| - 1].rv
    ensures log[i] in p
  {
    var live := log[since..];
    var m := PrefixOfSelection(c, live, p);
    assert live[m - 1] == log[since + m - 1];
    assert i <= since + m - 1;
    assert live[..m][i - since] == log[i];
    FilterMember(c, live[..m], log[i]);
  }

  /** How one step may move a watcher towards its end. */
  ghost predicate Winds(st: State, w: Watcher, w': Watcher, writes: bool, cancels: bool) {
    && (!w.closed && w'.closed ==> writes && w.registered && |w.buffer| == 512)
    && (w.closed ==> w'.closed && |w'.buffer| <= |w.buffer| && w'.buffer == w.buffer[|w.buffer| - |w'.buffer|..])
    && (w.phase.Running? && w'.phase.Leaving? && !cancels ==> w.closed && w.out == Underway(st, w))
  }

  lemma OfferWinds(st: State, w: Watcher, e: Event)
    requires w.terms.since <= |st.log| && FlowInv(st, w)
    ensures Winds(st, w, Offer(w, e), true, false)
  {
  }

  lemma TakeWinds(st: State, w: Watcher)
    requires w.hand.None?
    ensures Winds(st, w, Take(st.resources, w), false, false)
  {
    if w.bootstrap == [] && w.buffer == [] {
      assert Underway(st, w) == w.out;
    }
  }

  lemma Stays(st: State, w: Watcher, w': Watcher, writes: bool, cancels: bool)
    requires w'.closed == w.closed && w'.buffer == w.buffer && (w.phase.Running? && w'.phase.Leaving? ==> cancels)
    ensures Winds(st, w, w', writes, cancels)
  {
  }

  lemma WriteWinds(sys: System, op: Op, j: nat)
    requires Enabled(sys, Write(op)) && j < |sys.watchers| && WatcherInv(sys.st, sys.watchers[j])
    ensures j < |Do(sys, Write(op)).watchers|
    ensures Winds(sys.st, sys.watchers[j], Do(sys, Write(op)).watchers[j], true, false)
  {
    var w, o := sys.watchers[j], Apply(sys.st, op);
    if o.result.Err? || |o.state.log| == 0 {
      Stays(sys.st, w, w, true, false);
    } else {
      OfferWinds(sys.st, w, o.state.log[|o.state.log| - 1]);
    }
  }

  /** Only a full buffer closes a subscription, and a pump that finds it closed has delivered all it was sent. */
  lemma DropsOnlyWhenFull(sys: System, step: Step, j: nat)
    requires Enabled(sys, step) && j < |sys.watchers| && WatcherInv(sys.st, sys.watchers[j])
    ensures j < |Do(sys, step).watchers|
    ensures Winds(sys.st, sys.watchers[j], Do(sys, step).watchers[j], step.Write?, step.Cancel?)
  {
    match step
    case Write(op) => WriteWinds(sys, op, j);
    case TakeNext(i) =>
      if i == j {
        TakeWinds(sys.st, sys.watchers[j]);
      }
    case _ =>
  }

  // ---- Folding what was delivered ----

  lemma {:induction false} ReplayConcat(resources: map<GVR, bool>, m: map<Key, Object>, a: seq<Event>, b: seq<Event>)
    ensures Replay(resources, m, a + b) == Replay(resources, Replay(resources, m, a), b)
  {
    if b == [] {
      assert a + b == a;
    } else {
      var n := |b| - 1;
      ReplayConcat(resources, m, a, b[..n]);
      assert (a + b)[..|a + b| - 1] == a + b[..n];
    }
  }

  /** One event moves the view of a type and namespace exactly when it belongs there. */
  lemma ViewStep(resources: map<GVR, bool>, data: map<Key, Object>, rv: nat, e: Event, gvr: GVR, namespace: string)
    requires WellFormedBase(resources, data, rv) && WellKeyed(resources, KeyOf(resources, e.gvr, e.obj), e.obj)
    ensures View(resources, ApplyEvent(resources, data, e), gvr, namespace) ==
      if e.gvr == gvr && InNamespace(resources, gvr, namespace, e.obj)
      then ApplyEvent(resources, View(resources, data, gvr, namespace), e)
      else View(resources, data, gvr, namespace)
  {
    var k := KeyOf(resources, e.gvr, e.obj);
    if k in data && Namespaced(resources, e.gvr) {
      PathInjective(Namespace(data[k]), Name(data[k]), Namespace(e.obj), Name(e.obj));
    }
  }

  lemma DataAtWellFormed(st: State, n: nat)
    requires Inv(st) && n <= |st.log|
    ensures WellFormedBase(st.resources, DataAt(st, n), st.baseRV + n)
  {
    PrefixWellFormed(st, n);
  }

  lemma ViewLast(st: State, gvr: GVR, opts: WatchOptions, n: nat)
    requires Inv(st) && n < |st.log| && SelectsAll(opts)
    ensures View(st.resources, DataAt(st, n + 1), gvr, opts.namespace)
         == Replay(st.resources, View(st.resources, DataAt(st, n), gvr, opts.namespace),
                   Selected(st.resources, gvr, opts, [st.log[n]]))
  {
    var e := st.log[n];
    DataAtWellFormed(st, n);
    assert st.log[..n + 1][..n] == st.log[..n];
    assert DataAt(st, n + 1) == ApplyEvent(st.resources, DataAt(st, n), e);
    ViewStep(st.resources, DataAt(st, n), st.baseRV + n, e, gvr, opts.namespace);
    var v := View(st.resources, DataAt(st, n), gvr, opts.namespace);
    var c := Chooser(st.resources, gvr, opts);
    assert [e][1..] == [];
    if c(e) {
      assert Filter(c, [e]) == [e];
      assert [e] == [] + [e];
      ReplayAppend(st.resources, v, [], e);
    } else {
      FilterNone(c, [e]);
    }
  }

  lemma ReplayOneMore(resources: map<GVR, bool>, v: map<Key, Object>, gvr: GVR, opts: WatchOptions, a: seq<Event>,
      e: Event)
    ensures Replay(resources, v, Selected(resources, gvr, opts, a + [e]))
         == Replay(resources, Replay(resources, v, Selected(resources, gvr, opts, a)), Selected(resources, gvr, opts, [e]))
  {
    SelectedLast(resources, gvr, opts, a, e);
    ReplayConcat(resources, v, Selected(resources, gvr, opts, a), Selected(resources, gvr, opts, [e]));
  }

  lemma SliceOneMore(log: seq<Event>, a: nat, n: nat)
    requires a < n <= |log|
    ensures log[a..n] == log[a..n - 1] + [log[n - 1]]
  {
  }

  lemma FoldOneMore(resources: map<GVR, bool>, log: seq<Event>, gvr: GVR, opts: WatchOptions, v: map<Key, Object>,
      a: nat, n: nat, before: map<Key, Object>, after: map<Key, Object>)
    requires a < n <= |log| && Replay(resources, v, Selected(resources, gvr, opts, log[a..n - 1])) == before
    requires after == Replay(resources, before, Selected(resources, gvr, opts, [log[n - 1]]))
    ensures Replay(resources, v, Selected(resources, gvr, opts, log[a..n])) == after
  {
    SliceOneMore(log, a, n);
    ReplayOneMore(resources, v, gvr, opts, log[a..n - 1], log[n - 1]);
  }

  /** The view after event i is the one before with that event, if it matches. */
  ghost predicate Linked(resources: map<GVR, bool>, log: seq<Event>, views: seq<map<Key, Object>>,
      gvr: GVR, opts: WatchOptions, i: int)
    requires 0 <= i < |log| && |views| == |log| + 1
  {
    views[i + 1] == Replay(resources, views[i], Selected(resources, gvr, opts, [log[i]]))
  }

  /** Folding along a chain of views, each of which is the one before with the next matching event. */
  lemma {:induction false} FoldChain(resources: map<GVR, bool>, log: seq<Event>, views: seq<map<Key, Object>>,
      gvr: GVR, opts: WatchOptions, a: nat, n: nat)
    requires |views| == |log| + 1 && a <= n <= |log|
    requires forall i :: 0 <= i < |log| ==> Linked(resources, log, views, gvr, opts, i)
    ensures Replay(resources, views[a], Selected(resources, gvr, opts, log[a..n])) == views[n]
    decreases n
  {
    if a < n {
      FoldChain(resources, log, views, gvr, opts, a, n - 1);
      assert Linked(resources, log, views, gvr, opts, n - 1);
      FoldOneMore(resources, log, gvr, opts, views[a], a, n, views[n - 1], views[n]);
    } else {
      assert log[a..n] == [];
    }
  }

  ghost function Views(st: State, gvr: GVR, namespace: string): seq<map<Key, Object>> {
    seq(|st.log| + 1, i requires 0 <= i <= |st.log| => View(st.resources, DataAt(st, i), gvr, namespace))
  }

  lemma ViewsChain(st: State, gvr: GVR, opts: WatchOptions)
    requires Inv(st) && SelectsAll(opts)
    ensures forall i :: 0 <= i < |st.log| ==> Linked(st.resources, st.log, Views(st, gvr, opts.namespace), gvr, opts, i)
  {
    forall i | 0 <= i < |st.log| ensures Linked(st.resources, st.log, Views(st, gvr, opts.namespace), gvr, opts, i) {
      ViewLast(st, gvr, opts, i);
    }
  }

  /** Folding the matching events between two points over the view at the first gives the view at the second. */
  lemma FoldSelected(st: State, gvr: GVR, opts: WatchOptions, a: nat, n: nat)
    requires Inv(st) && a <= n <= |st.log| && SelectsAll(opts)
    ensures Replay(st.resources, View(st.resources, DataAt(st, a), gvr, opts.namespace),
                   Selected(st.resources, gvr, opts, st.log[a..n]))
         == View(st.resources, DataAt(st, n), gvr, opts.namespace)
  {
    ViewsChain(st, gvr, opts);
    FoldChain(st.resources, st.log, Views(st, gvr, opts.namespace), gvr, opts, a, n);
  }

  /** ... and to the end, the view of the contents. */
  lemma FoldSince(st: State, gvr: GVR, opts: WatchOptions, a: nat)
    requires Inv(st) && a <= |st.log| && SelectsAll(opts)
    ensures Replay(st.resources, View(st.resources, DataAt(st, a), gvr, opts.namespace), Selected(st.resources, gvr, opts, st.log[a..]))
         == Listed(st, gvr, opts.namespace, opts.selector)
  {
    FoldSelected(st, gvr, opts, a, |st.log|);
    WholeLog(st, a);
    ListedIsView(st, gvr, opts);
  }

  lemma WholeLog(st: State, a: nat)
    requires Inv(st) && a <= |st.log|
    ensures st.log[a..] == st.log[a..|st.log|] && DataAt(st, |st.log|) == st.data
  {
    assert st.log[..|st.log|] == st.log;
  }

  lemma DeliveredUpTo(st: State, w: Watcher) returns (n: nat)
    requires w.terms.since <= |st.log| && w.out <= Owed(st, w.terms) && |w.terms.first| <= |w.out|
    ensures w.terms.since <= n <= |st.log|
    ensures w.out == w.terms.first + Selected(st.resources, w.terms.gvr, w.terms.opts, st.log[w.terms.since..n])
    ensures if |w.out| == |w.terms.first| then n == w.terms.since else n > 0 && w.out[|w.out| - 1] == st.log[n - 1]
  {
    var t := w.terms;
    var p := w.out[|t.first|..];
    DeliveredLive(st, w);
    n := PrefixUpTo(st.log, t.since, Chooser(st.resources, t.gvr, t.opts), p);
  }

  lemma DeliveredLive(st: State, w: Watcher)
    requires w.terms.since <= |st.log| && w.out <= Owed(st, w.terms) && |w.terms.first| <= |w.out|
    ensures var p := w.out[|w.terms.first|..];
      w.out == w.terms.first + p && p <= Selected(st.resources, w.terms.gvr, w.terms.opts, st.log[w.terms.since..])
  {
  }

  lemma PrefixUpTo(log: seq<Event>, since: nat, c: Event -> bool, p: seq<Event>) returns (n: nat)
    requires since <= |log| && p <= Filter(c, log[since..])
    ensures since <= n <= |log| && p == Filter(c, log[since..n])
    ensures if p == [] then n == since else n > 0 && p[|p| - 1] == log[n - 1]
  {
    var m := PrefixOfSelection(c, log[since..], p);
    n := since + m;
    assert log[since..][..m] == log[since..n];
  }

  /**
   * A watch from the current state with no selector, its bootstrap delivered: folding what it
   * received over nothing gives exactly what the store held for that type and namespace at the last
   * delivered version (the version of registration before the first live event).
   */
  lemma SnapshotWatchFolds(st: State, w: Watcher) returns (n: nat)
    requires Inv(st) && WatcherInv(st, w) && FromSnapshot(w.terms) && SelectsAll(w.terms.opts)
    requires |w.terms.first| <= |w.out|
    ensures w.terms.since <= n <= |st.log|
    ensures if |w.out| == |w.terms.first| then n == w.terms.since else w.out[|w.out| - 1].rv == st.baseRV + n
    ensures Replay(st.resources, map[], w.out) == View(st.resources, DataAt(st, n), w.terms.gvr, w.terms.opts.namespace)
  {
    var t := w.terms;
    var p := w.out[|t.first|..];
    n := DeliveredUpTo(st, w);
    LogVersions(st);
    assert w.out == t.first + p;
    ReplayConcat(st.resources, map[], t.first, p);
    FoldSelected(st, t.gvr, t.opts, t.since, n);
  }

  /** ... and once nothing is left on its way, the current contents. */
  lemma DrainedSnapshotWatchIsCurrent(trace: seq<System>, i: nat, j: nat)
    requires Behavior(trace) && i < |trace| && j < |trace[i].watchers|
    requires var w := trace[i].watchers[j];
      && FromSnapshot(w.terms) && SelectsAll(w.terms.opts)
      && w.phase.Running? && w.registered && w.hand.None? && w.bootstrap == [] && w.buffer == []
    ensures var st, w := trace[i].st, trace[i].watchers[j];
      Replay(st.resources, map[], w.out) == Listed(st, w.terms.gvr, w.terms.opts.namespace, w.terms.opts.selector)
  {
    BehaviorKeepsInv(trace, i);
    DeliveredIsPrefix(trace, i, j);
    OwedFolds(trace[i].st, trace[i].watchers[j]);
  }

  lemma OwedFolds(st: State, w: Watcher)
    requires Inv(st) && WatcherInv(st, w) && FromSnapshot(w.terms) && SelectsAll(w.terms.opts) && w.out == Owed(st, w.terms)
    ensures Replay(st.resources, map[], w.out) == Listed(st, w.terms.gvr, w.terms.opts.namespace, w.terms.opts.selector)
  {
    var t := w.terms;
    ReplayConcat(st.resources, map[], t.first, Selected(st.resources, t.gvr, t.opts, st.log[t.since..]));
    FoldSince(st, t.gvr, t.opts, t.since);
  }

  /** The history is the contiguous run of versions ending at the store's, as long as the cap allows. */
  lemma HistoryIsContiguous(trace: seq<System>, i: nat)
    requires Behavior(trace) && i < |trace|
    ensures var s := trace[i].st;
      && |s.history| == (if |s.log| < s.histCap then |s.log| else s.histCap)
      && (forall x :: 0 <= x < |s.history| ==> s.history[x].rv == s.rv - |s.history| + 1 + x)
  {
    BehaviorKeepsInv(trace, i);
    HistoryOf(trace[i].st);
  }

  lemma HistoryOf(s: State)
    requires Inv(s)
    ensures |s.history| == (if |s.log| < s.histCap then |s.log| else s.histCap)
    ensures forall x :: 0 <= x < |s.history| ==> s.history[x].rv == s.rv - |s.history| + 1 + x
  {
    if s.history != [] {
      HistoryIsTail(s);
      LogVersions(s);
      assert forall x :: 0 <= x < |s.history| ==> s.history[x] == s.log[|s.log| - |s.history| + x];
    }
  }

  /** A resumed watch is owed exactly the matching events after the version it named. */
  lemma ResumedIsOwed(st: State, t: Terms)
    requires TermsInv(st, t) && Resumed(st, t)
    ensures st.baseRV < t.opts.startRV && t.opts.startRV - st.baseRV <= |st.log|
    ensures Owed(st, t) == Selected(st.resources, t.gvr, t.opts, st.log[t.opts.startRV - st.baseRV..])
  {
    var n := t.opts.startRV - st.baseRV;
    assert st.log[n..] == st.log[n..t.since] + st.log[t.since..];
    FilterAppend(Chooser(st.resources, t.gvr, t.opts), st.log[n..t.since], st.log[t.since..]);
  }

  /**
   * List at version L, later Watch from L with L at or above the oldest retained version: applied to
   * the List result, what the drained watcher received rebuilds the current contents, deletions included.
   */
  lemma ListThenWatchIsCurrent(trace: seq<System>, l: nat, i: nat, j: nat)
    requires Behavior(trace) && l <= i < |trace| && j < |trace[i].watchers|
    requires var w := trace[i].watchers[j];
      && Resumed(trace[i].st, w.terms) && SelectsAll(w.terms.opts) && w.terms.opts.startRV == trace[l].st.rv
      && w.phase.Running? && w.registered && w.hand.None? && w.bootstrap == [] && w.buffer == []
    ensures var st, w := trace[i].st, trace[i].watchers[j];
      Replay(st.resources,
             Listed(trace[l].st, w.terms.gvr, w.terms.opts.namespace, w.terms.opts.selector),
             w.out)
        == Listed(st, w.terms.gvr, w.terms.opts.namespace, w.terms.opts.selector)
  {
    BehaviorKeepsInv(trace, i);
    BehaviorKeepsInv(trace, l);
    StoreOnlyGrows(trace, l, i);
    assert WatcherInv(trace[i].st, trace[i].watchers[j]);
    DeliveredIsPrefix(trace, i, j);
    ListThenOwed(trace[l].st, trace[i].st, trace[i].watchers[j].terms);
  }

  lemma ListedIsView(s: State, gvr: GVR, opts: WatchOptions)
    requires SelectsAll(opts)
    ensures Listed(s, gvr, opts.namespace, opts.selector) == View(s.resources, s.data, gvr, opts.namespace)
  {
  }

  lemma EarlierData(s0: State, st: State)
    requires Inv(s0) && Grew(s0, st)
    ensures s0.rv - st.baseRV == |s0.log| <= |st.log| && DataAt(st, |s0.log|) == s0.data
  {
    assert st.log[..|s0.log|] == s0.log;
  }

  lemma ListThenOwed(s0: State, st: State, t: Terms)
    requires Inv(s0) && Inv(st) && Grew(s0, st) && TermsInv(st, t) && Resumed(st, t)
    requires SelectsAll(t.opts) && t.opts.startRV == s0.rv
    ensures Replay(st.resources, Listed(s0, t.gvr, t.opts.namespace, t.opts.selector), Owed(st, t))
         == Listed(st, t.gvr, t.opts.namespace, t.opts.selector)
  {
    ListedEarlier(s0, st, t.gvr, t.opts);
    OwedSince(st, t, |s0.log|);
    FoldSince(st, t.gvr, t.opts, |s0.log|);
  }

  lemma OwedSince(st: State, t: Terms, n: nat)
    requires TermsInv(st, t) && Resumed(st, t) && t.opts.startRV - st.baseRV == n <= |st.log|
    ensures Owed(st, t) == Selected(st.resources, t.gvr, t.opts, st.log[n..])
  {
    ResumedIsOwed(st, t);
  }

  lemma ListedEarlier(s0: State, st: State, gvr: GVR, opts: WatchOptions)
    requires Inv(s0) && Grew(s0, st) && SelectsAll(opts)
    ensures |s0.log| <= |st.log| && s0.rv - st.baseRV == |s0.log|
    ensures Listed(s0, gvr, opts.namespace, opts.selector) == View(st.resources, DataAt(st, |s0.log|), gvr, opts.namespace)
  {
    EarlierData(s0, st);
    ListedIsView(s0, gvr, opts);
  }

  ghost predicate Grew(a: State, b: State) {
    SameStart(a, b) && a.log <= b.log
  }

  lemma StepGrows(sys: System, step: Step)
    requires SystemInv(sys) && Enabled(sys, step)
    ensures Grew(sys.st, Do(sys, step).st)
  {
    if step.Write? {
      ApplyKeepsInv(sys.st, step.op);
    }
  }

  lemma GrewTransitive(a: State, b: State, c: State)
    requires Grew(a, b) && Grew(b, c)
    ensures Grew(a, c)
  {
  }

  lemma NeighboursGrow(trace: seq<System>, i: nat)
    requires Behavior(trace) && i + 1 < |trace|
    ensures Grew(trace[i].st, trace[i + 1].st)
  {
    BehaviorKeepsInv(trace, i);
    assert Next(trace[i], trace[i + 1]);
    NextGrows(trace[i], trace[i + 1]);
  }

  lemma {:induction false} ChainGrows(sts: seq<State>, a: nat, b: nat)
    requires a <= b < |sts| && forall i :: 0 <= i < |sts| - 1 ==> Grew(sts[i], sts[i + 1])
    ensures Grew(sts[a], sts[b])
  {
    if a < b {
      ChainGrows(sts, a, b - 1);
      GrewTransitive(sts[a], sts[b - 1], sts[b]);
    }
  }

  ghost function Stores(trace: seq<System>): seq<State> {
    seq(|trace|, i requires 0 <= i < |trace| => trace[i].st)
  }

  lemma StoresGrow(trace: seq<System>)
    requires Behavior(trace)
    ensures forall i :: 0 <= i < |Stores(trace)| - 1 ==> Grew(Stores(trace)[i], Stores(trace)[i + 1])
  {
    forall i | 0 <= i < |trace| - 1 ensures Grew(Stores(trace)[i], Stores(trace)[i + 1]) {
      NeighboursGrow(trace, i);
    }
  }

  /** Along a behavior the store keeps its start and only appends to its log. */
  lemma StoreOnlyGrows(trace: seq<System>, a: nat, b: nat)
    requires Behavior(trace) && a <= b < |trace|
    ensures Grew(trace[a].st, trace[b].st)
  {
    StoresGrow(trace);
    ChainGrows(Stores(trace), a, b);
  }

  lemma NextGrows(a: System, b: System)
    requires SystemInv(a) && Next(a, b)
    ensures Grew(a.st, b.st)
  {
    var step :| Enabled(a, step) && b == Do(a, step);
    StepGrows(a, step);
  }

  // ---- Resuming below the history ----

  /** Contents with one version bound: untouched keys kept their object, touched ones are newer. */
  lemma NewerIffTouched(st: State, n: nat, k: Key)
    requires Inv(st) && n <= |st.log| && k in st.data && st.rv < Decimal.UINT64_LIMIT
    ensures var rv := Decimal.ParseRV(ResourceVersion(st.data[k]));
      if UntouchedSince(st, n, k) then k in DataAt(st, n) && DataAt(st, n)[k] == st.data[k] && rv <= st.baseRV + n
      else rv > st.baseRV + n
  {
    assert st.log[..|st.log|] == st.log;
    DataWellFormed(st);
    var u: nat :| u <= st.rv && StampedBy(st.data[k], u);
    Decimal.ParseFormat(u);
    if UntouchedSince(st, n, k) {
      UntouchedKeepsContents(st, n, |st.log|, k);
      DataAtWellFormed(st, n);
      var v: nat :| v <= st.baseRV + n && StampedBy(DataAt(st, n)[k], v);
      Decimal.FormatInjective(u, v);
    } else {
      var i :| n <= i < |st.log| && Touches(st, i, k);
      TouchedIsNewer(st, n, i, |st.log|, k);
      var v: nat :| st.baseRV + n < v && StampedBy(st.data[k], v);
      Decimal.FormatInjective(u, v);
    }
  }

  /** What a fallback snapshot leaves under a key: its object if it is listed and newer than the version asked for. */
  lemma {:induction false} FallbackFolds(resources: map<GVR, bool>, data: map<Key, Object>, rv: nat, gvr: GVR,
      opts: WatchOptions, order: seq<Key>, m: map<Key, Object>, q: Key)
    requires WellFormedBase(resources, data, rv) && opts.hasStartRV && opts.startRV > 0
    requires forall i :: 0 <= i < |order| ==> order[i] in data && order[i].gvr == gvr
    ensures LeavesUnder(resources, data, gvr, opts, order, m, Replay(resources, m, Snapshot(resources, data, opts, order)), q)
    decreases |order|
  {
    if order != [] {
      var rest, k := order[..|order| - 1], order[|order| - 1];
      assert order == rest + [k];
      FallbackFolds(resources, data, rv, gvr, opts, rest, m, q);
      FallbackOneMore(resources, data, rv, gvr, opts, rest, k, m);
      LeavesOneMore(resources, data, gvr, opts, rest, k, m, Replay(resources, m, Snapshot(resources, data, opts, rest)), q);
    }
  }

  ghost predicate LeavesUnder(resources: map<GVR, bool>, data: map<Key, Object>, gvr: GVR, opts: WatchOptions,
      order: seq<Key>, m: map<Key, Object>, r: map<Key, Object>, q: Key) {
    && (q in r <==> q in m || (q in order && Brings(resources, data, gvr, opts, q)))
    && (q in r ==> r[q] == if q in order && Brings(resources, data, gvr, opts, q) then data[q] else m[q])
  }

  lemma LeavesOneMore(resources: map<GVR, bool>, data: map<Key, Object>, gvr: GVR, opts: WatchOptions,
      rest: seq<Key>, k: Key, m: map<Key, Object>, r: map<Key, Object>, q: Key)
    requires LeavesUnder(resources, data, gvr, opts, rest, m, r, q)
    ensures LeavesUnder(resources, data, gvr, opts, rest + [k], m, if Brings(resources, data, gvr, opts, k) then r[k := data[k]] else r, q)
  {
    assert q in rest + [k] <==> q in rest || q == k;
  }

  lemma FallbackOneMore(resources: map<GVR, bool>, data: map<Key, Object>, rv: nat, gvr: GVR, opts: WatchOptions,
      rest: seq<Key>, k: Key, m: map<Key, Object>)
    requires WellFormedBase(resources, data, rv) && opts.hasStartRV && opts.startRV > 0
    requires (forall i :: 0 <= i < |rest| ==> rest[i] in data) && k in data && k.gvr == gvr
    ensures var before := Replay(resources, m, Snapshot(resources, data, opts, rest));
      var after := Replay(resources, m, Snapshot(resources, data, opts, rest + [k]));
      after == if Brings(resources, data, gvr, opts, k) then before[k := data[k]] else before
  {
    var e := Event(Added, k.gvr, data[k], Decimal.ParseRV(ResourceVersion(data[k])));
    assert (rest + [k])[..|rest|] == rest;
    if Brings(resources, data, gvr, opts, k) {
      assert Snapshot(resources, data, opts, rest + [k]) == Snapshot(resources, data, opts, rest) + [e];
      ReplayAppend(resources, m, Snapshot(resources, data, opts, rest), e);
      ApplyAdded(resources, Replay(resources, m, Snapshot(resources, data, opts, rest)), k, data[k], e.rv);
    } else {
      assert Snapshot(resources, data, opts, rest + [k]) == Snapshot(resources, data, opts, rest);
    }
  }

  predicate Brings(resources: map<GVR, bool>, data: map<Key, Object>, gvr: GVR, opts: WatchOptions, k: Key) {
    && k in data && InNamespace(resources, gvr, opts.namespace, data[k])
    && Decimal.ParseRV(ResourceVersion(data[k])) > opts.startRV
  }

  /** What a fallback delivers. */
  lemma FallbackDelivers(st: State, gvr: GVR, opts: WatchOptions, order: seq<Key>)
    requires Inv(st) && Enumerates(order, st.data, gvr) && SelectsAll(opts)
    requires opts.hasStartRV && opts.startRV > 0 && st.history != [] && opts.startRV < OldestHistoryRV(st)
    ensures Selected(st.resources, gvr, opts, Bootstrap(st, gvr, opts, order)) == Snapshot(st.resources, st.data, opts, order)
  {
    var b := Snapshot(st.resources, st.data, opts, order);
    assert Bootstrap(st, gvr, opts, order) == b;
    SnapshotPasses(st.resources, st.data, gvr, opts, order);
    FilterAll(Chooser(st.resources, gvr, opts), b);
  }

  /** Nothing that is listed now goes missing. */
  lemma FallbackKeepsCurrent(st: State, gvr: GVR, opts: WatchOptions, order: seq<Key>, r: map<Key, Object>, k: Key)
    requires Inv(st) && Enumerates(order, st.data, gvr) && st.rv < Decimal.UINT64_LIMIT
    requires st.baseRV <= opts.startRV <= st.rv && k in View(st.resources, st.data, gvr, opts.namespace)
    requires var listed := View(st.resources, DataAt(st, opts.startRV - st.baseRV), gvr, opts.namespace);
      && (k in r <==> k in listed || (k in order && Brings(st.resources, st.data, gvr, opts, k)))
      && (k in r ==> r[k] == if k in order && Brings(st.resources, st.data, gvr, opts, k) then st.data[k] else listed[k])
    ensures k in r && r[k] == st.data[k]
  {
    NewerIffTouched(st, opts.startRV - st.baseRV, k);
  }

  /**
   * Resuming below the oldest retained version falls back to a snapshot without deletions. Applied to
   * what was listed at that version it gives the current contents if and only if nothing listed then
   * has been deleted since.
   */
  lemma FallbackMissesExactlyDeletions(st: State, gvr: GVR, opts: WatchOptions, order: seq<Key>)
    requires Inv(st) && Enumerates(order, st.data, gvr) && st.rv < Decimal.UINT64_LIMIT
    requires opts.hasStartRV && opts.startRV > 0 && st.baseRV <= opts.startRV <= st.rv && SelectsAll(opts)
    requires st.history != [] && opts.startRV < OldestHistoryRV(st)
    ensures var listed := View(st.resources, DataAt(st, opts.startRV - st.baseRV), gvr, opts.namespace);
      var now := View(st.resources, st.data, gvr, opts.namespace);
      var folded := Replay(st.resources, listed, Selected(st.resources, gvr, opts, Bootstrap(st, gvr, opts, order)));
      folded == now <==> listed.Keys <= now.Keys
  {
    var listed := View(st.resources, DataAt(st, opts.startRV - st.baseRV), gvr, opts.namespace);
    var now := View(st.resources, st.data, gvr, opts.namespace);
    var r := Replay(st.resources, listed, Snapshot(st.resources, st.data, opts, order));
    FallbackDelivers(st, gvr, opts, order);
    DataWellFormed(st);
    forall k ensures k in r <==> k in listed || (k in order && Brings(st.resources, st.data, gvr, opts, k))
      ensures k in r ==> r[k] == if k in order && Brings(st.resources, st.data, gvr, opts, k) then st.data[k] else listed[k]
    {
      FallbackFolds(st.resources, st.data, st.rv, gvr, opts, order, listed, k);
    }
    forall k | k in now ensures k in r && r[k] == now[k] {
      FallbackKeepsCurrent(st, gvr, opts, order, r, k);
    }
    SameIffNoneLost(listed, now, r);
  }

  lemma SameIffNoneLost(listed: map<Key, Object>, now: map<Key, Object>, r: map<Key, Object>)
    requires forall k :: k in now ==> k in r && r[k] == now[k]
    requires forall k :: k in listed ==> k in r
    requires forall k :: k in r ==> k in listed || k in now
    ensures r == now <==> listed.Keys <= now.Keys
  {
    if listed.Keys <= now.Keys {
      assert r.Keys == now.Keys;
    }
  }
}
