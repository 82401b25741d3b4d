/** The registry object of system/gd/module.cc. */
module ModuleRegistry {
  import opened ModuleGraph
  import opened ModuleLifecycle

  /** What a lookup that asserts or aborts in the source comes to. */
  datatype Lookup = Fatal | Found(instance: Instance)

  class ModuleRegistry {
    /** What the ListDependencies of each module answers. */
    const graph: Graph
    var startedModules: map<Factory, Instance>
    var startOrder: seq<Factory>
    /** The module and handler objects not deleted yet, and the events the modules see. */
    var live: map<Instance, Module>
    var handlers: set<Handler>
    var serial: nat
    var trace: seq<Event>

    ghost function Abs(): State
      reads this
    {
      State(startedModules, startOrder, live, handlers, serial, trace)
    }

    constructor (graph: Graph)
      ensures this.graph == graph && Abs() == State(map[], [], map[], {}, 0, [])
    {
      this.graph := graph;
      startedModules, startOrder, live, handlers, serial, trace := map[], [], map[], {}, 0, [];
    }

    method Get(f: Factory) returns (r: Lookup)
      ensures r == if f in startedModules then Found(startedModules[f]) else Fatal
    {
      if f !in startedModules {
        return Fatal;
      }
      return Found(startedModules[f]);
    }

    /** Looks a module up on behalf of `instance`, which must have listed it. */
    method GetDependency(instance: Instance, f: Factory) returns (r: Lookup)
      requires instance in live
      ensures r == if f in live[instance].dependencies && f in startedModules then Found(startedModules[f]) else Fatal
    {
      var list := live[instance].dependencies;
      for i := 0 to |list|
        invariant f !in list[..i]
      {
        if list[i] == f {
          r := Get(f);
          return;
        }
      }
      return Fatal;
    }

    /** The module's own Start: it may fetch every dependency it listed, and each fetch succeeds. */
    method StartModule(instance: Instance) returns (fetched: seq<Instance>)
      requires Sound(graph, Abs()) && instance in live
      requires forall i :: 0 <= i < |live[instance].dependencies| ==> live[instance].dependencies[i] in startedModules
      ensures |fetched| == |live[instance].dependencies|
      ensures forall i :: 0 <= i < |fetched| ==>
                fetched[i] in live && live[fetched[i]].factory == live[instance].dependencies[i]
    {
      fetched := [];
      var list := live[instance].dependencies;
      for i := 0 to |list|
        invariant |fetched| == i
        invariant forall k :: 0 <= k < i ==> fetched[k] in live && live[fetched[k]].factory == list[k]
      {
        var r := GetDependency(instance, list[i]);
        assert r.Found?;
        fetched := fetched + [r.instance];
      }
    }

    /** Constructs a module, gives it the registry and a handler, and lets it list its dependencies. */
    method NewModule(f: Factory) returns (instance: Instance)
      requires f in graph
      modifies this`live, this`handlers, this`serial, this`trace
      ensures Abs() == Construct(graph, old(Abs()), f) && instance == old(serial)
      ensures instance in live && live[instance].dependencies == graph[f]
    {
      instance := serial;
      live := live[instance := Module(f, instance, [])];
      handlers, serial, trace := handlers + {instance}, serial + 1, trace + [Constructed(f)];
      live := live[instance := live[instance].(dependencies := graph[f])];
    }

    method Start(f: Factory) returns (instance: Instance)
      requires Closed(graph) && Acyclic(graph) && f in graph && Sound(graph, Abs())
      modifies this
      ensures Abs() == StartOne(graph, old(Abs()), f)
      ensures f in startedModules && instance == startedModules[f]
      decreases Rank(graph, f), 1, 0
    {
      if f in startedModules {
        return startedModules[f];
      }
      ghost var st := Abs();
      instance := NewModule(f);
      ConstructSound(graph, st, f);
      DepsStartable(graph, f);
      StartModules(live[instance].dependencies, Rank(graph, f));
      DependenciesUp(graph, st, f);
      FinishStart(f, instance);
    }

    /** Calls the module's own Start and registers it. */
    method FinishStart(f: Factory, instance: Instance)
      requires Sound(graph, Abs()) && instance in live
      requires forall i :: 0 <= i < |live[instance].dependencies| ==> live[instance].dependencies[i] in startedModules
      modifies this`trace, this`startOrder, this`startedModules
      ensures Abs() == Finish(old(Abs()), f, instance)
    {
      var _ := StartModule(instance);
      trace := trace + [Started(f)];
      startOrder := startOrder + [f];
      startedModules := startedModules[f := instance];
    }

    method StartModules(modules: seq<Factory>, ghost bound: nat)
      requires Closed(graph) && Acyclic(graph) && Startable(graph, modules, bound) && Sound(graph, Abs())
      modifies this
      ensures Abs() == StartAll(graph, old(Abs()), modules, bound)
      decreases bound, 0, |modules|
    {
      ghost var st := Abs();
      for i := 0 to |modules|
        invariant Sound(graph, Abs()) && Startable(graph, modules[i..], bound)
        invariant StartAll(graph, Abs(), modules[i..], bound) == StartAll(graph, st, modules, bound)
      {
        StartableTail(graph, modules[i..], bound);
        StartOneEffect(graph, Abs(), modules[i]);
        assert modules[i..][0] == modules[i] && modules[i..][1..] == modules[i + 1..];
        var _ := Start(modules[i]);
      }
    }

    /** Clears the handler of a module and stops it. */
    method StopModule(f: Factory)
      requires f in startedModules && startedModules[f] in live && live[startedModules[f]].handler in handlers
      modifies this`trace
      ensures trace == old(trace) + [HandlerCleared(f), Stopped(f)]
    {
      var instance := startedModules[f];
      assert live[instance].handler in handlers;
      trace := trace + [HandlerCleared(f)];
      trace := trace + [Stopped(f)];
    }

    /** Deletes the handler of a module, then the module, then its registration. */
    method DeleteModule(f: Factory)
      requires f in startedModules && startedModules[f] in live && live[startedModules[f]].handler in handlers
      modifies this`trace, this`live, this`handlers, this`startedModules
      ensures Abs() == Erase(old(Abs()), f)
    {
      var instance := startedModules[f];
      handlers := handlers - {live[instance].handler};
      trace := trace + [HandlerDeleted(f)];
      live := live - {instance};
      trace := trace + [Deleted(f)];
      startedModules := startedModules - {f};
    }

    /** First pass, in reverse start order: every module is found, cleared and stopped. */
    method StopPass()
      requires Sound(graph, Abs())
      modifies this`trace
      ensures trace == old(trace) + StopEvents(startOrder)
    {
      assert startOrder[..|startOrder|] == startOrder;
      ghost var was := Abs();
      for i := |startOrder| downto 0
        invariant trace + StopEvents(startOrder[..i]) == old(trace) + StopEvents(startOrder)
      {
        OrderRegistered(graph, was, startOrder[i]);
        PrefixEvents(trace, startOrder, i);
        StopModule(startOrder[i]);
      }
    }

    /** One round of the second pass: the module is found and deleted. */
    method DeleteLast(ghost was: State, f: Factory, ghost i: nat)
      requires NoDuplicates(was.order) && Remaining(graph, was, Abs(), i + 1) && f == was.order[i]
      modifies this`trace, this`live, this`handlers, this`startedModules
      ensures Remaining(graph, was, Abs(), i)
      ensures trace + DeleteEvents(was.order[..i]) == old(trace) + DeleteEvents(was.order[..i + 1])
    {
      RemainingStep(graph, was, Abs(), i);
      PrefixEvents(trace, was.order, i);
      DeleteModule(f);
    }

    /** Second pass, in reverse start order. */
    method DeletePass(ghost was: State)
      requires NoDuplicates(startOrder) && startOrder == was.order && Remaining(graph, was, Abs(), |startOrder|)
      modifies this`trace, this`live, this`handlers, this`startedModules
      ensures trace == old(trace) + DeleteEvents(startOrder)
      ensures startedModules == map[] && live == map[] && handlers == {}
    {
      assert startOrder[..|startOrder|] == startOrder;
      for i := |startOrder| downto 0
        invariant trace + DeleteEvents(startOrder[..i]) == old(trace) + DeleteEvents(startOrder)
        invariant Remaining(graph, was, Abs(), i)
      {
        DeleteLast(was, startOrder[i], i);
      }
      RemainingNone(graph, was, Abs());
    }

    method StopAll()
      requires Quiet(graph, Abs())
      modifies this`trace, this`live, this`handlers, this`startedModules, this`startOrder
      ensures Abs() == ModuleLifecycle.StopAll(old(Abs()))
    {
      ghost var was := Abs();
      StopPass();
      RemainingAll(graph, was, Abs());
      DeletePass(Abs());
      startOrder := [];
      StopIsEmpty(graph, was);
    }
  }
}
