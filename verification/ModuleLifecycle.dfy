/** What starting and stopping modules does to the registry of system/gd/module.cc, with the objects
    it owns modelled as an explicit heap so that `delete` can be told from mere forgetting. */
module ModuleLifecycle {
  import opened ModuleGraph
  import opened Sets

  type Instance = nat
  type Handler = nat

  datatype Module = Module(factory: Factory, handler: Handler, dependencies: seq<Factory>)

  datatype Event =
    | Constructed(f: Factory) | Started(f: Factory)
    | HandlerCleared(f: Factory) | Stopped(f: Factory)
    | HandlerDeleted(f: Factory) | Deleted(f: Factory)

  /** `live` and `handlers` are the objects not yet deleted, `serial` the next object number. */
  datatype State = State(
    started: map<Factory, Instance>, order: seq<Factory>,
    live: map<Instance, Module>, handlers: set<Handler>, serial: nat, trace: seq<Event>)

  // --- starting ---

  function Construct(g: Graph, st: State, f: Factory): State
    requires f in g
  {
    st.(live := st.live[st.serial := Module(f, st.serial, g[f])], handlers := st.handlers + {st.serial},
        serial := st.serial + 1, trace := st.trace + [Constructed(f)])
  }

  function Finish(st: State, f: Factory, instance: Instance): State {
    st.(order := st.order + [f], started := st.started[f := instance], trace := st.trace + [Started(f)])
  }

  ghost predicate Startable(g: Graph, ms: seq<Factory>, bound: nat) {
    forall i :: 0 <= i < |ms| ==> ms[i] in g && Rank(g, ms[i]) < bound
  }

  lemma DepsStartable(g: Graph, f: Factory)
    requires Closed(g) && Acyclic(g) && f in g
    ensures Startable(g, g[f], Rank(g, f))
  {
    forall i | 0 <= i < |g[f]| ensures g[f][i] in g && Rank(g, g[f][i]) < Rank(g, f) {
      DepRank(g, f, g[f][i]);
    }
  }

  lemma StartableTail(g: Graph, ms: seq<Factory>, bound: nat)
    requires Startable(g, ms, bound) && ms != []
    ensures ms[0] in g && Rank(g, ms[0]) < bound && Startable(g, ms[1..], bound)
  {
    forall i | 0 <= i < |ms[1..]| ensures ms[1..][i] in g && Rank(g, ms[1..][i]) < bound {
      assert ms[1..][i] == ms[i + 1];
    }
  }

  /** Starts one module: nothing if it is started, else its dependencies first, then itself. */
  ghost function StartOne(g: Graph, st: State, f: Factory): State
    requires Closed(g) && Acyclic(g) && f in g
    decreases Rank(g, f), 1, 0
  {
    if f in st.started then st
    else
      DepsStartable(g, f);
      Finish(StartAll(g, Construct(g, st, f), g[f], Rank(g, f)), f, st.serial)
  }

  ghost function StartAll(g: Graph, st: State, ms: seq<Factory>, bound: nat): State
    requires Closed(g) && Acyclic(g) && Startable(g, ms, bound)
    decreases bound, 0, |ms|
  {
    if ms == [] then st else StartAll(g, StartOne(g, st, ms[0]), ms[1..], bound)
  }

  // --- what every start keeps ---

  ghost predicate NoDuplicates(s: seq<Factory>) {
    forall i, j :: 0 <= i < j < |s| ==> s[i] != s[j]
  }

  /** Every dependency stands before its dependents. */
  ghost predicate DependencyOrdered(g: Graph, s: seq<Factory>) {
    forall i :: 0 <= i < |s| ==> s[i] in g && forall d :: d in g[s[i]] ==> d in s[..i]
  }

  ghost predicate Registered(g: Graph, st: State) {
    forall f :: f in st.started ==>
      f in g && st.started[f] in st.live && st.live[st.started[f]] == Module(f, st.started[f], g[f])
  }

  ghost predicate Allocated(st: State) {
    st.handlers == st.live.Keys && forall n :: n in st.live ==> n < st.serial && st.live[n].handler == n
  }

  /** Each module of the order is new to it and comes when its dependencies are there. */
  ghost predicate Ordered(g: Graph, s: seq<Factory>) {
    s == [] ||
    var n := |s| - 1;
    Ordered(g, s[..n]) && s[n] in g && s[n] !in s[..n] && forall d :: d in g[s[n]] ==> d in s[..n]
  }

  lemma {:induction false} OrderedMeans(g: Graph, s: seq<Factory>)
    requires Ordered(g, s)
    ensures NoDuplicates(s) && DependencyOrdered(g, s)
  {
    if s != [] {
      var n := |s| - 1;
      OrderedMeans(g, s[..n]);
      forall i | 0 <= i < n ensures s[i] in g && forall d :: d in g[s[i]] ==> d in s[..i] {
        assert s[..n][i] == s[i] && s[..n][..i] == s[..i];
      }
    }
  }

  lemma OrderedDistinct(g: Graph, s: seq<Factory>)
    requires Ordered(g, s)
    ensures NoDuplicates(s)
  {
    OrderedMeans(g, s);
  }

  ghost predicate Sound(g: Graph, st: State) {
    && Ordered(g, st.order)
    && (forall f :: f in st.order <==> f in st.started)
    && Registered(g, st) && Allocated(st)
  }

  ghost function Starts(trace: seq<Event>): seq<Factory> {
    if trace == [] then []
    else
      var n := |trace| - 1;
      Starts(trace[..n]) + if trace[n].Started? then [trace[n].f] else []
  }

  ghost function Constructions(trace: seq<Event>): multiset<Factory> {
    if trace == [] then multiset{}
    else
      var n := |trace| - 1;
      Constructions(trace[..n]) + if trace[n].Constructed? then multiset{trace[n].f} else multiset{}
  }

  /** The new part of the start order is what the new part of the trace says was constructed and
      started. */
  ghost predicate Told(st: State, st': State) {
    && st.order <= st'.order && st.trace <= st'.trace
    && Starts(st'.trace) == Starts(st.trace) + st'.order[|st.order|..]
    && Constructions(st'.trace) == Constructions(st.trace) + multiset(st'.order[|st.order|..])
  }

  /** From `st` to `st'` exactly `added` were started on top of what was; nothing older was touched,
      no object was left outside the registry, and the trace tells of nothing else. */
  ghost predicate Extends(st: State, st': State, added: set<Factory>) {
    && Told(st, st') && st'.started.Keys == st.started.Keys + added
    && (forall f :: f in st.started ==> st'.started[f] == st.started[f])
    && (forall n :: n in st.live ==> n in st'.live && st'.live[n] == st.live[n])
    && (forall n :: n in st'.live && n !in st.live ==>
          var f := st'.live[n].factory; f in st'.started && f !in st.started && st'.started[f] == n)
    && st.serial <= st'.serial
  }

  lemma ExtendsTransitive(g: Graph, st: State, st1: State, st2: State, a: set<Factory>, b: set<Factory>)
    requires Registered(g, st1) && Extends(st, st1, a) && Extends(st1, st2, b)
    ensures Extends(st, st2, a + b)
  {
    ToldTransitive(st, st1, st2);
  }

  lemma ToldTransitive(st: State, st1: State, st2: State)
    requires Told(st, st1) && Told(st1, st2)
    ensures Told(st, st2)
  {
    var m, n := |st.order|, |st1.order|;
    assert st2.order[m..] == st1.order[m..] + st2.order[n..];
  }

  lemma ConstructSound(g: Graph, st: State, f: Factory)
    requires Sound(g, st) && f in g
    ensures Sound(g, Construct(g, st, f))
  {
  }

  /** Starting a module whose dependencies are up: `st1` is the registry with the new instance
      constructed, `st2` the registry with the dependencies `b` started on top. */
  lemma FinishEffect(g: Graph, st: State, st2: State, f: Factory, b: set<Factory>)
    requires Sound(g, st) && f in g && f !in st.started && f !in b
    requires Sound(g, st2) && Extends(Construct(g, st, f), st2, b) && forall d :: d in g[f] ==> d in b + st.started.Keys
    ensures Sound(g, Finish(st2, f, st.serial)) && Extends(st, Finish(st2, f, st.serial), b + {f})
  {
    var n := st.serial;
    assert f !in st2.order;
    assert st2.live[n] == Construct(g, st, f).live[n] == Module(f, n, g[f]);
    FinishSound(g, st2, f, n);
    FinishExtends(g, st, st2, f, b);
  }

  lemma FinishExtends(g: Graph, st: State, st2: State, f: Factory, b: set<Factory>)
    requires f in g && f !in st.started && f !in b && Allocated(st)
    requires Extends(Construct(g, st, f), st2, b)
    requires st.serial in st2.live && st2.live[st.serial].factory == f
    ensures Extends(st, Finish(st2, f, st.serial), b + {f})
  {
    FinishTrace(g, st, st2, f);
    var st3 := Finish(st2, f, st.serial);
    assert st3.started.Keys == st2.started.Keys + {f};
    forall n | n in st3.live && n !in st.live
      ensures var m := st3.live[n].factory; m in st3.started && m !in st.started && st3.started[m] == n
    {
      if n != st.serial {
        assert n !in Construct(g, st, f).live;
      }
    }
  }

  lemma FinishTrace(g: Graph, st: State, st2: State, f: Factory)
    requires f in g && Told(Construct(g, st, f), st2)
    ensures Told(st, Finish(st2, f, st.serial))
  {
    assert (st2.order + [f])[|st.order|..] == st2.order[|st.order|..] + [f];
    TraceSnoc(st.trace, Constructed(f));
    TraceSnoc(st2.trace, Started(f));
  }

  lemma TraceSnoc(trace: seq<Event>, e: Event)
    ensures Starts(trace + [e]) == Starts(trace) + if e.Started? then [e.f] else []
    ensures Constructions(trace + [e]) == Constructions(trace) + if e.Constructed? then multiset{e.f} else multiset{}
  {
    assert (trace + [e])[..|trace|] == trace;
  }

  lemma FinishSound(g: Graph, st: State, f: Factory, n: Instance)
    requires Sound(g, st) && f in g && f !in st.order && n in st.live && st.live[n] == Module(f, n, g[f])
    requires forall d :: d in g[f] ==> d in st.order
    ensures Sound(g, Finish(st, f, n))
  {
    OrderedSnoc(g, st.order, f);
  }

  lemma OrderedSnoc(g: Graph, s: seq<Factory>, f: Factory)
    requires Ordered(g, s) && f in g && f !in s && forall d :: d in g[f] ==> d in s
    ensures Ordered(g, s + [f])
  {
    assert (s + [f])[..|s|] == s;
  }

  /** Starting a module starts exactly what it reaches, dependencies first, each once. */
  lemma {:induction false} StartOneEffect(g: Graph, st: State, f: Factory)
    requires Closed(g) && Acyclic(g) && f in g && Sound(g, st)
    ensures Sound(g, StartOne(g, st, f)) && Extends(st, StartOne(g, st, f), Reach(g, f) - st.started.Keys)
    decreases Rank(g, f), 1, 0
  {
    if f in st.started {
      StartedReach(g, st, f);
      ExtendsNone(st, Reach(g, f) - st.started.Keys);
    } else {
      DepsStartable(g, f);
      ConstructSound(g, st, f);
      var st1 := Construct(g, st, f);
      StartAllEffect(g, st1, g[f], Rank(g, f));
      OwnDeps(g, f);
      ReachOfDeps(g, f);
      FinishStart(g, st, StartAll(g, st1, g[f], Rank(g, f)), f, ReachAll(g, g[f]), Reach(g, f));
    }
  }

  lemma ExtendsNone(st: State, none: set<Factory>)
    requires none == {}
    ensures Extends(st, st, none)
  {
  }

  lemma FinishStart(g: Graph, st: State, st2: State, f: Factory, below: set<Factory>, all: set<Factory>)
    requires Sound(g, st) && f in g && f !in st.started && Sound(g, st2)
    requires f !in below && all == {f} + below && forall d :: d in g[f] ==> d in below
    requires Extends(Construct(g, st, f), st2, below - st.started.Keys)
    ensures Sound(g, Finish(st2, f, st.serial)) && Extends(st, Finish(st2, f, st.serial), all - st.started.Keys)
  {
    AllBut(f, below, all, st.started.Keys);
    FinishEffect(g, st, st2, f, below - st.started.Keys);
  }

  lemma AllBut(f: Factory, below: set<Factory>, all: set<Factory>, keys: set<Factory>)
    requires all == {f} + below && f !in keys
    ensures below - keys + {f} == all - keys
  {
  }

  lemma OwnDeps(g: Graph, f: Factory)
    requires Closed(g) && Acyclic(g) && f in g
    ensures f !in ReachAll(g, g[f])
    ensures forall d :: d in g[f] ==> d in ReachAll(g, g[f])
  {
    InReachAll(g, g[f], f);
    forall d | d in g[f] ensures f !in Reach(g, d) && d in ReachAll(g, g[f]) {
      NotInOwnDeps(g, f, d);
      ReachSelf(g, d);
      InReachAll(g, g[f], d);
    }
  }

  /** The registry when a module's own Start is called. */
  ghost function WithDependencies(g: Graph, st: State, f: Factory): State
    requires Closed(g) && Acyclic(g) && f in g
  {
    DepsStartable(g, f);
    StartAll(g, Construct(g, st, f), g[f], Rank(g, f))
  }

  /** When the dependencies of a module have been started, the module is still alive, still not
      registered, and each of its dependencies is. */
  lemma DependenciesUp(g: Graph, st: State, f: Factory)
    requires Closed(g) && Acyclic(g) && f in g && Sound(g, st) && f !in st.started
    ensures var st2 := WithDependencies(g, st, f);
            && Sound(g, st2) && f !in st2.started
            && st.serial in st2.live && st2.live[st.serial] == Module(f, st.serial, g[f])
            && forall i :: 0 <= i < |g[f]| ==> g[f][i] in st2.started
  {
    DepsStartable(g, f);
    ConstructSound(g, st, f);
    StartAllEffect(g, Construct(g, st, f), g[f], Rank(g, f));
    OwnDeps(g, f);
    assert st.serial in Construct(g, st, f).live;
  }

  lemma StartedReach(g: Graph, st: State, f: Factory)
    requires Sound(g, st) && f in st.started
    ensures Reach(g, f) <= st.started.Keys
  {
    OrderedMeans(g, st.order);
    forall m, d | m in st.started.Keys && DependsOn(g, m, d) ensures d in st.started.Keys {
      assert m in st.order;
      var i :| 0 <= i < |st.order| && st.order[i] == m;
      assert d in st.order[..i];
    }
    ClosedHoldsReach(g, st.started.Keys, f);
  }

  lemma {:induction false} StartAllEffect(g: Graph, st: State, ms: seq<Factory>, bound: nat)
    requires Closed(g) && Acyclic(g) && Startable(g, ms, bound) && Sound(g, st)
    ensures Sound(g, StartAll(g, st, ms, bound))
    ensures Extends(st, StartAll(g, st, ms, bound), ReachAll(g, ms) - st.started.Keys)
    decreases bound, 0, |ms|
  {
    if ms == [] {
      ExtendsNone(st, {});
    } else {
      StartableTail(g, ms, bound);
      var st1 := StartOne(g, st, ms[0]);
      StartOneEffect(g, st, ms[0]);
      StartAllEffect(g, st1, ms[1..], bound);
      ExtendsBoth(g, st, st1, StartAll(g, st1, ms[1..], bound), Reach(g, ms[0]), ReachAll(g, ms[1..]));
    }
  }

  lemma ExtendsBoth(g: Graph, st: State, st1: State, st2: State, a: set<Factory>, b: set<Factory>)
    requires Sound(g, st1) && Extends(st, st1, a - st.started.Keys) && Extends(st1, st2, b - st1.started.Keys)
    ensures Extends(st, st2, a + b - st.started.Keys)
  {
    ExtendsTransitive(g, st, st1, st2, a - st.started.Keys, b - st1.started.Keys);
    assert (a - st.started.Keys) + (b - st1.started.Keys) == a + b - st.started.Keys;
  }

  // --- stopping ---

  ghost function StopEvents(order: seq<Factory>): seq<Event> {
    if order == [] then []
    else
      var n := |order| - 1;
      [HandlerCleared(order[n]), Stopped(order[n])] + StopEvents(order[..n])
  }

  ghost function DeleteEvents(order: seq<Factory>): seq<Event> {
    if order == [] then []
    else
      var n := |order| - 1;
      [HandlerDeleted(order[n]), Deleted(order[n])] + DeleteEvents(order[..n])
  }

  ghost function StopAll(st: State): State {
    State(map[], [], st.live - st.started.Values, st.handlers - st.started.Values, st.serial,
          st.trace + StopEvents(st.order) + DeleteEvents(st.order))
  }

  lemma {:induction false} EventAt(order: seq<Factory>, i: nat)
    requires i < 2 * |order|
    ensures |StopEvents(order)| == |DeleteEvents(order)| == 2 * |order|
    ensures var f := order[|order| - 1 - i / 2];
            && StopEvents(order)[i] == (if i % 2 == 0 then HandlerCleared(f) else Stopped(f))
            && DeleteEvents(order)[i] == (if i % 2 == 0 then HandlerDeleted(f) else Deleted(f))
  {
    if |order| > 1 {
      EventAt(order[..|order| - 1], if i < 2 then 0 else i - 2);
    }
  }

  /** The events of one shutdown. */
  ghost function Shutdown(order: seq<Factory>): seq<Event> {
    StopEvents(order) + DeleteEvents(order)
  }

  /** Where in the start order the module of event `i` stands, and which kind of event it is. */
  lemma ShutdownAt(order: seq<Factory>, i: nat) returns (k: nat, second: bool, deleting: bool)
    requires i < |Shutdown(order)|
    ensures k < |order| && i == 2 * (|order| - 1 - k) + (if second then 1 else 0) + if deleting then 2 * |order| else 0
    ensures Shutdown(order)[i] == ShutdownEvent(order[k], second, deleting)
  {
    var n := |order|;
    assert n > 0;
    EventAt(order, 0);
    deleting := i >= 2 * n;
    var j := if deleting then i - 2 * n else i;
    EventAt(order, j);
    k, second := n - 1 - j / 2, j % 2 == 1;
  }

  ghost function ShutdownEvent(f: Factory, second: bool, deleting: bool): Event {
    if deleting then if second then Deleted(f) else HandlerDeleted(f)
    else if second then Stopped(f) else HandlerCleared(f)
  }

  /** A module stops before everything it depends on; nothing is deleted before the last stop; a
      handler is cleared before its module stops and deleted before its module is. */
  ghost predicate MustPrecede(g: Graph, a: Event, b: Event) {
    || (a.Stopped? && b.Stopped? && DependsOn(g, a.f, b.f))
    || (a.Stopped? && (b.HandlerDeleted? || b.Deleted?))
    || (a.f == b.f && a.HandlerCleared? && b.Stopped?)
    || (a.f == b.f && a.HandlerDeleted? && b.Deleted?)
  }

  /** In one shutdown each event happens once, for exactly the started modules, and in order. */
  ghost predicate OrderlyShutdown(g: Graph, order: seq<Factory>, ev: seq<Event>) {
    && (forall i, j :: 0 <= i < j < |ev| ==> ev[i] != ev[j])
    && (forall i :: 0 <= i < |ev| ==> ev[i].f in order && !ev[i].Constructed? && !ev[i].Started?)
    && (forall f :: f in order ==>
          HandlerCleared(f) in ev && Stopped(f) in ev && HandlerDeleted(f) in ev && Deleted(f) in ev)
    && (forall i, j :: 0 <= i < |ev| && 0 <= j < |ev| && MustPrecede(g, ev[i], ev[j]) ==> i < j)
  }

  lemma OrderedPair(g: Graph, order: seq<Factory>, a: nat, b: nat)
    requires Ordered(g, order) && a < |order| && b < |order|
    ensures a != b ==> order[a] != order[b]
    ensures DependsOn(g, order[a], order[b]) ==> b < a
  {
    OrderedMeans(g, order);
    if DependsOn(g, order[a], order[b]) {
      assert order[b] in order[..a];
    }
  }

  /** Two events at once: their kinds are set by their places, and equal modules have equal places. */
  lemma ShutdownPair(g: Graph, order: seq<Factory>, i: nat, j: nat)
    requires Ordered(g, order)
    requires i < |Shutdown(order)| && j < |Shutdown(order)|
    ensures i < j ==> Shutdown(order)[i] != Shutdown(order)[j]
    ensures MustPrecede(g, Shutdown(order)[i], Shutdown(order)[j]) ==> i < j
  {
    var a, second, deleting := ShutdownAt(order, i);
    var b, second', deleting' := ShutdownAt(order, j);
    OrderedPair(g, order, a, b);
  }

  lemma ShutdownHas(order: seq<Factory>, k: nat)
    requires k < |order|
    ensures var ev, f := Shutdown(order), order[k];
            HandlerCleared(f) in ev && Stopped(f) in ev && HandlerDeleted(f) in ev && Deleted(f) in ev
  {
    var n, ev := |order|, Shutdown(order);
    var i := 2 * (n - 1 - k);
    EventAt(order, i);
    EventAt(order, i + 1);
    assert ev[i] == HandlerCleared(order[k]) && ev[i + 1] == Stopped(order[k]);
    assert ev[2 * n + i] == HandlerDeleted(order[k]) && ev[2 * n + i + 1] == Deleted(order[k]);
  }

  lemma ShutdownOrderly(g: Graph, order: seq<Factory>)
    requires Ordered(g, order)
    ensures OrderlyShutdown(g, order, Shutdown(order))
  {
    var ev := Shutdown(order);
    forall i, j | 0 <= i < |ev| && 0 <= j < |ev|
      ensures i < j ==> ev[i] != ev[j]
      ensures MustPrecede(g, ev[i], ev[j]) ==> i < j
    {
      ShutdownPair(g, order, i, j);
    }
    forall i | 0 <= i < |ev| ensures ev[i].f in order && !ev[i].Constructed? && !ev[i].Started? {
      var _, _, _ := ShutdownAt(order, i);
    }
    forall f | f in order
      ensures HandlerCleared(f) in ev && Stopped(f) in ev && HandlerDeleted(f) in ev && Deleted(f) in ev
    {
      var k :| 0 <= k < |order| && order[k] == f;
      ShutdownHas(order, k);
    }
  }

  // --- whole runs ---

  datatype Op = Start(ms: seq<Factory>) | Stop

  /** Between calls the live objects are exactly the registered ones. */
  ghost predicate Quiet(g: Graph, st: State) {
    Sound(g, st) && st.live.Keys == st.started.Values
  }

  ghost function Top(g: Graph): nat {
    |g.Keys| + 1
  }

  lemma AnyStartable(g: Graph, ms: seq<Factory>)
    requires forall i :: 0 <= i < |ms| ==> ms[i] in g
    ensures Startable(g, ms, Top(g))
  {
    forall i | 0 <= i < |ms| ensures Rank(g, ms[i]) < Top(g) {
      SubsetSize(Reach(g, ms[i]), g.Keys);
    }
  }

  ghost predicate Step(g: Graph, st: State, op: Op, st': State)
    requires Closed(g) && Acyclic(g)
  {
    match op
    case Start(ms) =>
      && (forall i :: 0 <= i < |ms| ==> ms[i] in g)
      && (AnyStartable(g, ms); st' == StartAll(g, st, ms, Top(g)))
    case Stop => st' == StopAll(st)
  }

  lemma StartKeepsQuiet(g: Graph, st: State, ms: seq<Factory>, bound: nat)
    requires Closed(g) && Acyclic(g) && Startable(g, ms, bound) && Quiet(g, st)
    ensures Quiet(g, StartAll(g, st, ms, bound))
  {
    StartAllEffect(g, st, ms, bound);
    var st' := StartAll(g, st, ms, bound);
    forall n ensures n in st'.live <==> n in st'.started.Values {
      if n in st.live {
        var f :| f in st.started && st.started[f] == n;
        assert st'.started[f] == n;
      } else if n in st'.live {
        assert st'.started[st'.live[n].factory] == n;
      }
    }
  }

  /** A start constructs and starts each module that is reachable and not yet started exactly once, and
      no other. */
  lemma StartsExactlyOnce(g: Graph, st: State, ms: seq<Factory>, bound: nat)
    requires Closed(g) && Acyclic(g) && Startable(g, ms, bound) && Sound(g, st)
    ensures var st' := StartAll(g, st, ms, bound);
            && st.order <= st'.order
            && var started := st'.order[|st.order|..];
               && Starts(st'.trace) == Starts(st.trace) + started
               && Constructions(st'.trace) == Constructions(st.trace) + multiset(started)
               && NoDuplicates(started)
               && forall f :: f in started <==> f in ReachAll(g, ms) && f !in st.started
  {
    StartAllEffect(g, st, ms, bound);
    OrderedMeans(g, StartAll(g, st, ms, bound).order);
    NewSuffix(st.order, StartAll(g, st, ms, bound).order);
  }

  lemma StartableParts(g: Graph, ms: seq<Factory>, bound: nat, k: nat)
    requires Startable(g, ms, bound) && k <= |ms|
    ensures Startable(g, ms[..k], bound) && Startable(g, ms[k..], bound)
  {
    forall i | 0 <= i < |ms[k..]| ensures ms[k..][i] in g && Rank(g, ms[k..][i]) < bound {
      assert ms[k..][i] == ms[i + k];
    }
  }

  lemma {:induction false} StartInParts(g: Graph, st: State, ms: seq<Factory>, bound: nat, k: nat)
    requires Closed(g) && Acyclic(g) && Startable(g, ms, bound) && k <= |ms|
    ensures Startable(g, ms[..k], bound) && Startable(g, ms[k..], bound)
    ensures StartAll(g, st, ms, bound) == StartAll(g, StartAll(g, st, ms[..k], bound), ms[k..], bound)
    decreases k
  {
    StartableParts(g, ms, bound, k);
    if k == 0 {
      assert ms[..0] == [] && ms[0..] == ms;
    } else {
      StartableTail(g, ms, bound);
      StartInParts(g, StartOne(g, st, ms[0]), ms[1..], bound, k - 1);
      assert ms[..k][0] == ms[0] && ms[..k][1..] == ms[1..][..k - 1] && ms[1..][k - 1..] == ms[k..];
    }
  }

  lemma OrderAfter(g: Graph, st: State, ms: seq<Factory>, bound: nat)
    requires Closed(g) && Acyclic(g) && Startable(g, ms, bound) && Sound(g, st)
    ensures var st' := StartAll(g, st, ms, bound);
            && Sound(g, st') && st.order <= st'.order
            && forall f :: f in st'.order <==> f in st.started || f in ReachAll(g, ms)
  {
    StartAllEffect(g, st, ms, bound);
  }

  /** A list starts in its own order: what its first modules reach stands before whatever else it starts. */
  lemma ListOrder(g: Graph, st: State, ms: seq<Factory>, bound: nat, k: nat) returns (n: nat)
    requires Closed(g) && Acyclic(g) && Startable(g, ms, bound) && Sound(g, st) && k <= |ms|
    ensures n <= |StartAll(g, st, ms, bound).order|
    ensures forall f :: f in StartAll(g, st, ms, bound).order[..n] <==> f in st.started || f in ReachAll(g, ms[..k])
  {
    StartInParts(g, st, ms, bound, k);
    var st1 := StartAll(g, st, ms[..k], bound);
    OrderAfter(g, st, ms[..k], bound);
    OrderAfter(g, st1, ms[k..], bound);
    n := |st1.order|;
    assert StartAll(g, st, ms, bound).order[..n] == st1.order;
  }

  lemma NewSuffix(a: seq<Factory>, b: seq<Factory>)
    requires a <= b && NoDuplicates(b)
    ensures NoDuplicates(b[|a|..]) && forall f :: f in b[|a|..] <==> f in b && f !in a
  {
    var n, tail := |a|, b[|a|..];
    forall f ensures f in tail <==> f in b && f !in a {
      if f in tail {
        var k :| 0 <= k < |tail| && tail[k] == f;
        assert b[n + k] == f;
      }
      if f in b && f !in a {
        var k :| 0 <= k < |b| && b[k] == f;
        assert k >= n && tail[k - n] == f;
      }
    }
  }

  lemma StopIsEmpty(g: Graph, st: State)
    requires Quiet(g, st)
    ensures Quiet(g, StopAll(st)) && StopAll(st).live == map[] && StopAll(st).handlers == {}
  {
  }

  /** A shutdown deletes every live object once and leaves an empty registry. */
  lemma StopLeavesEmpty(g: Graph, st: State)
    requires Quiet(g, st)
    ensures var st' := StopAll(st);
            && st'.started == map[] && st'.order == [] && st'.live == map[] && st'.handlers == {}
            && st'.trace == st.trace + Shutdown(st.order)
            && OrderlyShutdown(g, st.order, Shutdown(st.order))
  {
    StopIsEmpty(g, st);
    assert st.trace + StopEvents(st.order) + DeleteEvents(st.order) == st.trace + Shutdown(st.order);
    ShutdownOrderly(g, st.order);
  }

  lemma OrderRegistered(g: Graph, st: State, f: Factory)
    requires Sound(g, st) && f in st.order
    ensures f in st.started && st.started[f] in st.live && st.live[st.started[f]].handler in st.handlers
  {
  }

  lemma PrefixEvents(trace: seq<Event>, order: seq<Factory>, i: nat)
    requires i < |order|
    ensures trace + [HandlerCleared(order[i]), Stopped(order[i])] + StopEvents(order[..i])
         == trace + StopEvents(order[..i + 1])
    ensures trace + [HandlerDeleted(order[i]), Deleted(order[i])] + DeleteEvents(order[..i])
         == trace + DeleteEvents(order[..i + 1])
  {
    assert order[..i + 1][..i] == order[..i];
  }

  /** Halfway through the deletions: the first `i` modules of the start order are still registered,
      and exactly their objects are alive. */
  ghost predicate Remaining(g: Graph, was: State, st: State, i: nat) {
    && i <= |was.order|
    && (forall f :: f in st.started <==> f in was.order[..i])
    && Registered(g, st) && Allocated(st)
    && st.live.Keys == st.started.Values
  }

  lemma RemainingAll(g: Graph, was: State, st: State)
    requires Quiet(g, was) && st == was.(trace := st.trace)
    ensures NoDuplicates(st.order) && Remaining(g, st, st, |st.order|)
  {
    OrderedDistinct(g, st.order);
    assert st.order[..|st.order|] == st.order;
  }

  lemma RemainingNone(g: Graph, was: State, st: State)
    requires Remaining(g, was, st, 0)
    ensures st.started == map[] && st.live == map[] && st.handlers == {}
  {
  }

  /** Deletes the handler of a module, the module, and its registration. */
  ghost function Erase(st: State, f: Factory): State
    requires f in st.started && st.started[f] in st.live
  {
    var n := st.started[f];
    st.(started := st.started - {f}, live := st.live - {n}, handlers := st.handlers - {st.live[n].handler},
        trace := st.trace + [HandlerDeleted(f), Deleted(f)])
  }

  lemma EraseRegistered(g: Graph, st: State, f: Factory)
    requires Registered(g, st) && Allocated(st) && st.live.Keys == st.started.Values && f in st.started
    ensures var st' := Erase(st, f);
            Registered(g, st') && Allocated(st') && st'.live.Keys == st'.started.Values
  {
    var st' := Erase(st, f);
    forall n ensures n in st'.live <==> n in st'.started.Values {
      if n in st.live && n != st.started[f] {
        var e :| e in st.started && st.started[e] == n;
        assert st'.started[e] == n;
      }
    }
  }

  lemma RemainingStep(g: Graph, was: State, st: State, i: nat)
    requires NoDuplicates(was.order) && Remaining(g, was, st, i + 1)
    ensures var f := was.order[i];
            && f in st.started && st.started[f] in st.live && st.live[st.started[f]].handler in st.handlers
            && Remaining(g, was, Erase(st, f), i)
  {
    var f := was.order[i];
    assert was.order[..i + 1] == was.order[..i] + [f];
    assert f !in was.order[..i] && f in st.started;
    EraseRegistered(g, st, f);
  }

  ghost predicate IsRun(g: Graph, states: seq<State>, ops: seq<Op>)
    requires Closed(g) && Acyclic(g)
  {
    && |states| == |ops| + 1
    && states[0] == State(map[], [], map[], {}, 0, [])
    && forall i :: 0 <= i < |ops| ==> StepAt(g, states, ops, i)
  }

  ghost predicate StepAt(g: Graph, states: seq<State>, ops: seq<Op>, i: nat)
    requires Closed(g) && Acyclic(g) && |states| == |ops| + 1 && i < |ops|
  {
    Step(g, states[i], ops[i], states[i + 1])
  }

  lemma StepQuiet(g: Graph, st: State, op: Op, st': State)
    requires Closed(g) && Acyclic(g) && Quiet(g, st) && Step(g, st, op, st')
    ensures Quiet(g, st')
  {
    match op
    case Start(ms) =>
      AnyStartable(g, ms);
      StartKeepsQuiet(g, st, ms, Top(g));
    case Stop => StopIsEmpty(g, st);
  }

  /** After any sequence of starts and stops the start order is duplicate-free, holds exactly the
      started modules, puts dependencies first, and the live objects are exactly the registered ones. */
  lemma {:induction false} RunQuiet(g: Graph, states: seq<State>, ops: seq<Op>, i: nat)
    requires Closed(g) && Acyclic(g) && IsRun(g, states, ops) && i < |states|
    ensures Quiet(g, states[i])
  {
    if i == 0 {
      InitialQuiet(g);
    } else {
      RunQuiet(g, states, ops, i - 1);
      StepQuietAt(g, states, ops, i - 1);
    }
  }

  lemma InitialQuiet(g: Graph)
    ensures Quiet(g, State(map[], [], map[], {}, 0, []))
  {
  }

  lemma StepQuietAt(g: Graph, states: seq<State>, ops: seq<Op>, i: nat)
    requires Closed(g) && Acyclic(g) && IsRun(g, states, ops) && i < |ops| && Quiet(g, states[i])
    ensures Quiet(g, states[i + 1])
  {
    assert StepAt(g, states, ops, i);
    StepQuiet(g, states[i], ops[i], states[i + 1]);
  }

  /** The same, read off the start order itself. */
  lemma RunOrdered(g: Graph, states: seq<State>, ops: seq<Op>, i: nat)
    requires Closed(g) && Acyclic(g) && IsRun(g, states, ops) && i < |states|
    ensures NoDuplicates(states[i].order) && DependencyOrdered(g, states[i].order)
    ensures forall f :: f in states[i].order <==> f in states[i].started
  {
    RunQuiet(g, states, ops, i);
    OrderedMeans(g, states[i].order);
  }

  // --- the life of one module over a run ---

  /** The events of one module, in order. */
  ghost function EventsOf(trace: seq<Event>, f: Factory): seq<Event> {
    if trace == [] then []
    else
      var n := |trace| - 1;
      EventsOf(trace[..n], f) + if trace[n].f == f then [trace[n]] else []
  }

  /** A module's whole life, `n` times over. */
  ghost function Lives(f: Factory, n: nat): seq<Event> {
    if n == 0 then [] else Lives(f, n - 1) + Up(f) + Down(f)
  }

  ghost function Up(f: Factory): seq<Event> {
    [Constructed(f), Started(f)]
  }

  ghost function Down(f: Factory): seq<Event> {
    [HandlerCleared(f), Stopped(f), HandlerDeleted(f), Deleted(f)]
  }

  lemma EventsSnoc(trace: seq<Event>, e: Event, f: Factory)
    ensures EventsOf(trace + [e], f) == EventsOf(trace, f) + if e.f == f then [e] else []
  {
    assert (trace + [e])[..|trace|] == trace;
  }

  lemma {:induction false} EventsConcat(a: seq<Event>, b: seq<Event>, f: Factory)
    ensures EventsOf(a + b, f) == EventsOf(a, f) + EventsOf(b, f)
  {
    if b == [] {
      assert a + b == a;
    } else {
      var n := |b| - 1;
      EventsConcat(a, b[..n], f);
      assert (a + b)[..|a + b| - 1] == a + b[..n];
    }
  }

  /** Two events of one module before the rest. */
  lemma EventsPair(pair: seq<Event>, rest: seq<Event>, x: Factory)
    requires |pair| == 2 && pair[0].f == pair[1].f
    ensures EventsOf(pair + rest, x) == (if pair[0].f == x then pair else []) + EventsOf(rest, x)
  {
    EventsConcat(pair, rest, x);
    EventsSnoc(pair[..1], pair[1], x);
    EventsSnoc([], pair[0], x);
    assert pair[..1] + [pair[1]] == pair && [] + [pair[0]] == pair[..1];
  }

  ghost predicate Newly(st: State, reach: set<Factory>, x: Factory) {
    x in reach && x !in st.started
  }

  /** Starting a module adds its construction and its start to the events of each module it newly starts, in
      that order, and nothing to those of any other. */
  lemma {:induction false} StartOneEvents(g: Graph, st: State, f: Factory, x: Factory)
    requires Closed(g) && Acyclic(g) && f in g && Sound(g, st)
    ensures EventsOf(StartOne(g, st, f).trace, x)
         == EventsOf(st.trace, x) + if Newly(st, Reach(g, f), x) then Up(x) else []
    decreases Rank(g, f), 1, 0
  {
    if f in st.started {
      StartedReach(g, st, f);
    } else {
      DepsStartable(g, f);
      ConstructSound(g, st, f);
      var st1 := Construct(g, st, f);
      StartAllEvents(g, st1, g[f], Rank(g, f), x);
      OwnDeps(g, f);
      ReachOfDeps(g, f);
      FinishEvents(g, st, StartAll(g, st1, g[f], Rank(g, f)), f, ReachAll(g, g[f]), x);
    }
  }

  lemma FinishEvents(g: Graph, st: State, st2: State, f: Factory, below: set<Factory>, x: Factory)
    requires f in g && f !in st.started && f !in below
    requires EventsOf(st2.trace, x)
          == EventsOf(Construct(g, st, f).trace, x) + if Newly(st, below, x) then Up(x) else []
    ensures EventsOf(Finish(st2, f, st.serial).trace, x)
         == EventsOf(st.trace, x) + if Newly(st, {f} + below, x) then Up(x) else []
  {
    EventsSnoc(st.trace, Constructed(f), x);
    EventsSnoc(st2.trace, Started(f), x);
  }

  lemma {:induction false} StartAllEvents(g: Graph, st: State, ms: seq<Factory>, bound: nat, x: Factory)
    requires Closed(g) && Acyclic(g) && Startable(g, ms, bound) && Sound(g, st)
    ensures EventsOf(StartAll(g, st, ms, bound).trace, x)
         == EventsOf(st.trace, x) + if Newly(st, ReachAll(g, ms), x) then Up(x) else []
    decreases bound, 0, |ms|
  {
    if ms != [] {
      StartableTail(g, ms, bound);
      var st1 := StartOne(g, st, ms[0]);
      StartedAfterOne(g, st, ms[0], x);
      StartOneEvents(g, st, ms[0], x);
      StartAllEvents(g, st1, ms[1..], bound, x);
      UpOnce(st, st1, Reach(g, ms[0]), ReachAll(g, ms[1..]), x, EventsOf(st.trace, x));
    }
  }

  lemma StartedAfterOne(g: Graph, st: State, f: Factory, x: Factory)
    requires Closed(g) && Acyclic(g) && f in g && Sound(g, st)
    ensures Sound(g, StartOne(g, st, f))
    ensures x in StartOne(g, st, f).started <==> x in st.started || x in Reach(g, f)
  {
    StartOneEffect(g, st, f);
  }

  /** What the first start brought up the second leaves alone. */
  lemma UpOnce(st: State, st1: State, a: set<Factory>, b: set<Factory>, x: Factory, events: seq<Event>)
    requires x in st1.started <==> x in st.started || x in a
    ensures events + (if Newly(st, a, x) then Up(x) else []) + (if Newly(st1, b, x) then Up(x) else [])
         == events + if Newly(st, a + b, x) then Up(x) else []
  {
  }

  lemma {:induction false} StopPassEvents(order: seq<Factory>, x: Factory)
    requires NoDuplicates(order)
    ensures EventsOf(StopEvents(order), x) == if x in order then [HandlerCleared(x), Stopped(x)] else []
  {
    if order != [] {
      var n := |order| - 1;
      StopPassEvents(order[..n], x);
      EventsPair([HandlerCleared(order[n]), Stopped(order[n])], StopEvents(order[..n]), x);
      LastOrBefore(order, x);
    }
  }

  lemma {:induction false} DeletePassEvents(order: seq<Factory>, x: Factory)
    requires NoDuplicates(order)
    ensures EventsOf(DeleteEvents(order), x) == if x in order then [HandlerDeleted(x), Deleted(x)] else []
  {
    if order != [] {
      var n := |order| - 1;
      DeletePassEvents(order[..n], x);
      EventsPair([HandlerDeleted(order[n]), Deleted(order[n])], DeleteEvents(order[..n]), x);
      LastOrBefore(order, x);
    }
  }

  lemma LastOrBefore(order: seq<Factory>, x: Factory)
    requires NoDuplicates(order) && order != []
    ensures var n := |order| - 1;
            (x in order <==> x == order[n] || x in order[..n]) && !(x == order[n] && x in order[..n])
  {
    var n := |order| - 1;
    assert order == order[..n] + [order[n]];
  }

  lemma StopAllEvents(g: Graph, st: State, x: Factory)
    requires Sound(g, st)
    ensures EventsOf(StopAll(st).trace, x) == EventsOf(st.trace, x) + if x in st.started then Down(x) else []
  {
    OrderedDistinct(g, st.order);
    ShutdownEvents(st.trace, st.order, x);
    assert x in st.order <==> x in st.started;
  }

  lemma ShutdownEvents(trace: seq<Event>, order: seq<Factory>, x: Factory)
    requires NoDuplicates(order)
    ensures EventsOf(trace + StopEvents(order) + DeleteEvents(order), x)
         == EventsOf(trace, x) + if x in order then Down(x) else []
  {
    StopPassEvents(order, x);
    DeletePassEvents(order, x);
    EventsConcat(trace, StopEvents(order), x);
    EventsConcat(trace + StopEvents(order), DeleteEvents(order), x);
  }

  /** The module is up in the state its last event leaves. */
  ghost predicate LivedThrough(st: State, f: Factory, n: nat) {
    EventsOf(st.trace, f) == Lives(f, n) + if f in st.started then Up(f) else []
  }

  lemma StepLives(g: Graph, st: State, op: Op, st': State, f: Factory, n: nat) returns (n': nat)
    requires Closed(g) && Acyclic(g) && Quiet(g, st) && Step(g, st, op, st') && LivedThrough(st, f, n)
    ensures LivedThrough(st', f, n')
  {
    match op
    case Start(ms) =>
      AnyStartable(g, ms);
      StartLives(g, st, ms, Top(g), f, n);
      n' := n;
    case Stop =>
      n' := StopLives(g, st, f, n);
  }

  lemma StartLives(g: Graph, st: State, ms: seq<Factory>, bound: nat, f: Factory, n: nat)
    requires Closed(g) && Acyclic(g) && Startable(g, ms, bound) && Sound(g, st) && LivedThrough(st, f, n)
    ensures LivedThrough(StartAll(g, st, ms, bound), f, n)
  {
    StartAllEvents(g, st, ms, bound, f);
    StartedAfterAll(g, st, ms, bound, f);
  }

  lemma StartedAfterAll(g: Graph, st: State, ms: seq<Factory>, bound: nat, x: Factory)
    requires Closed(g) && Acyclic(g) && Startable(g, ms, bound) && Sound(g, st)
    ensures x in StartAll(g, st, ms, bound).started <==> x in st.started || x in ReachAll(g, ms)
  {
    StartAllEffect(g, st, ms, bound);
  }

  lemma StopLives(g: Graph, st: State, f: Factory, n: nat) returns (n': nat)
    requires Sound(g, st) && LivedThrough(st, f, n)
    ensures LivedThrough(StopAll(st), f, n')
  {
    StopAllEvents(g, st, f);
    n' := if f in st.started then n + 1 else n;
  }

  /** Over every run of starts and stops the events of a module are whole lives, each construction, start,
      clearing of the handler, stop, deletion of the handler and deletion once and in this order, and after them
      construction and start exactly when it is started. */
  lemma {:induction false} RunLives(g: Graph, states: seq<State>, ops: seq<Op>, i: nat, f: Factory) returns (n: nat)
    requires Closed(g) && Acyclic(g) && IsRun(g, states, ops) && i < |states|
    ensures LivedThrough(states[i], f, n)
  {
    if i == 0 {
      n := 0;
    } else {
      n := RunLives(g, states, ops, i - 1, f);
      RunQuiet(g, states, ops, i - 1);
      assert StepAt(g, states, ops, i - 1);
      n := StepLives(g, states[i - 1], ops[i - 1], states[i], f, n);
    }
  }
}
