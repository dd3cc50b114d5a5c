/**
 * The reactive cells of lumina/core/reactive.py. An observer callable is
 * identified by an ObserverId; what an observer does when called is outside
 * the model, except whether it raises, which is the parameter fails.
 * Each cell keeps a log of the calls it made and of the failures it caught.
 */
module Reactive {
  import opened Options

  type ObserverId = nat

  /** No observer appears twice. */
  predicate Distinct(s: seq<ObserverId>) {
    forall i, j :: 0 <= i < j < |s| ==> s[i] != s[j]
  }

  function Elements(s: seq<ObserverId>): set<ObserverId> {
    set x | x in s
  }

  /** The observers of order whose call raises, in call order. */
  function Failing(order: seq<ObserverId>, fails: ObserverId -> bool): (r: seq<ObserverId>)
    ensures |r| <= |order|
  {
    if order == [] then []
    else (if fails(order[0]) then [order[0]] else []) + Failing(order[1..], fails)
  }

  /** A caught failure is one of the called observers that raised, and every such observer is caught. */
  lemma {:induction false} FailingExactly(order: seq<ObserverId>, fails: ObserverId -> bool, o: ObserverId)
    ensures o in Failing(order, fails) <==> o in order && fails(o)
  {
    if order != [] {
      FailingExactly(order[1..], fails, o);
      assert order == [order[0]] + order[1..];
    }
  }

  /**
   * list(observers): the members of a set in some order, each exactly once.
   * The order a WeakSet yields is not specified, and the model fixes none.
   */
  method Enumerate(s: set<ObserverId>) returns (order: seq<ObserverId>)
    ensures Distinct(order) && Elements(order) == s && |order| == |s|
  {
    order := [];
    var remaining := s;
    while remaining != {}
      invariant remaining <= s
      invariant Distinct(order)
      invariant Elements(order) + remaining == s && Elements(order) !! remaining
      invariant |order| + |remaining| == |s|
      decreases |remaining|
    {
      var o :| o in remaining;
      order := order + [o];
      remaining := remaining - {o};
    }
  }

  /** What subscribe returns: the closure that discards the observer from the set it joined. */
  datatype Unsubscriber = Unsubscriber(observer: ObserverId, isAsync: bool)

  /** State: a value whose change notifies the synchronous observers and schedules the asynchronous ones. */
  class State<T(==)> {
    var value: T
    var observers: set<ObserverId>
    var asyncObservers: set<ObserverId>
    /** Synchronous observer calls, in order. */
    var calls: seq<ObserverId>
    /** Observers whose call raised; the error was printed and the loop went on. */
    var failures: seq<ObserverId>
    /** Asynchronous observers handed to asyncio.create_task, in order. */
    var scheduled: seq<ObserverId>

    constructor(initial: T)
      ensures value == initial && observers == {} && asyncObservers == {}
      ensures calls == [] && failures == [] && scheduled == []
    {
      value := initial;
      observers := {};
      asyncObservers := {};
      calls := [];
      failures := [];
      scheduled := [];
    }

    /**
     * _notify_observers: every synchronous observer is called once, a
     * failing one does not stop the rest; then every asynchronous observer
     * is scheduled once.
     */
    method NotifyObservers(fails: ObserverId -> bool) returns (order: seq<ObserverId>, tasks: seq<ObserverId>)
      modifies this`calls, this`failures, this`scheduled
      ensures Distinct(order) && Elements(order) == observers && |order| == |observers|
      ensures Distinct(tasks) && Elements(tasks) == asyncObservers && |tasks| == |asyncObservers|
      ensures calls == old(calls) + order
      ensures failures == old(failures) + Failing(order, fails)
      ensures scheduled == old(scheduled) + tasks
    {
      order := Enumerate(observers);
      calls := calls + order;
      failures := failures + Failing(order, fails);
      tasks := Enumerate(asyncObservers);
      scheduled := scheduled + tasks;
    }

    /**
     * The value setter: an equal value changes nothing and calls no one; a
     * different one is stored and then announced, in the order returned.
     */
    method SetValue(newValue: T, fails: ObserverId -> bool) returns (order: seq<ObserverId>, tasks: seq<ObserverId>)
      modifies this`value, this`calls, this`failures, this`scheduled
      ensures value == newValue
      ensures old(value) == newValue ==> order == [] && tasks == []
      ensures old(value) != newValue ==>
        && Distinct(order) && Elements(order) == observers && |order| == |observers|
        && Distinct(tasks) && Elements(tasks) == asyncObservers && |tasks| == |asyncObservers|
      ensures calls == old(calls) + order
      ensures failures == old(failures) + Failing(order, fails)
      ensures scheduled == old(scheduled) + tasks
    {
      order, tasks := [], [];
      if value != newValue {
        value := newValue;
        order, tasks := NotifyObservers(fails);
      }
    }

    /** subscribe: join the synchronous or the asynchronous set, as the flag says. */
    method Subscribe(observer: ObserverId, isAsync: bool) returns (u: Unsubscriber)
      modifies this`observers, this`asyncObservers
      ensures u == Unsubscriber(observer, isAsync)
      ensures isAsync ==> asyncObservers == old(asyncObservers) + {observer} && observers == old(observers)
      ensures !isAsync ==> observers == old(observers) + {observer} && asyncObservers == old(asyncObservers)
    {
      if isAsync {
        asyncObservers := asyncObservers + {observer};
      } else {
        observers := observers + {observer};
      }
      u := Unsubscriber(observer, isAsync);
    }

    /** The returned unsubscribe: discard from the same set; discarding an absent member is harmless. */
    method Unsubscribe(u: Unsubscriber)
      modifies this`observers, this`asyncObservers
      ensures u.isAsync ==> asyncObservers == old(asyncObservers) - {u.observer} && observers == old(observers)
      ensures !u.isAsync ==> observers == old(observers) - {u.observer} && asyncObservers == old(asyncObservers)
    {
      if u.isAsync {
        asyncObservers := asyncObservers - {u.observer};
      } else {
        observers := observers - {u.observer};
      }
    }
  }

  /**
   * Computed: a cached value recomputed lazily when marked dirty. The value
   * compute_fn would return at a read is the parameter current of Read.
   */
  class Computed<T> {
    /** The identity of this cell's _mark_dirty, as subscribed to its dependencies. */
    const markDirty: ObserverId
    var cached: Option<T>
    var dirty: bool
    /** How many times compute_fn has run. */
    var computeCalls: nat
    var observers: set<ObserverId>
    var calls: seq<ObserverId>
    var failures: seq<ObserverId>

    /** Starts dirty with nothing cached and no observers. */
    constructor(markDirty: ObserverId)
      ensures this.markDirty == markDirty
      ensures dirty && cached == None && computeCalls == 0
      ensures observers == {} && calls == [] && failures == []
    {
      this.markDirty := markDirty;
      cached := None;
      dirty := true;
      computeCalls := 0;
      observers := {};
      calls := [];
      failures := [];
    }

    /**
     * The dependency loop of __init__: _mark_dirty joins the synchronous
     * observers of every dependency. Dependencies holding values of
     * different types are subscribed by one call per type.
     */
    method SubscribeToDependencies<D(==)>(dependencies: seq<State<D>>)
      modifies dependencies`observers
      ensures forall d :: d in dependencies ==> d.observers == old(d.observers) + {markDirty}
    {
      var i := 0;
      while i < |dependencies|
        invariant 0 <= i <= |dependencies|
        invariant forall d :: d in dependencies[..i] ==> d.observers == old(d.observers) + {markDirty}
        invariant forall d :: d in dependencies && d !in dependencies[..i] ==> d.observers == old(d.observers)
      {
        var dep := dependencies[i];
        dep.observers := dep.observers + {markDirty};
        assert dependencies[..i + 1] == dependencies[..i] + [dep];
        i := i + 1;
      }
      assert dependencies[..i] == dependencies;
    }

    /** A clean cell always holds a cached value. */
    predicate Valid()
      reads this
    {
      !dirty ==> cached.Some?
    }

    /** _notify_observers: every observer called once; a failing one does not stop the rest. */
    method NotifyObservers(fails: ObserverId -> bool) returns (order: seq<ObserverId>)
      modifies this`calls, this`failures
      ensures Distinct(order) && Elements(order) == observers && |order| == |observers|
      ensures calls == old(calls) + order
      ensures failures == old(failures) + Failing(order, fails)
    {
      order := Enumerate(observers);
      calls := calls + order;
      failures := failures + Failing(order, fails);
    }

    /** _mark_dirty: set the flag and notify, in the order returned, without recomputing. */
    method MarkDirty(fails: ObserverId -> bool) returns (order: seq<ObserverId>)
      modifies this`dirty, this`calls, this`failures
      ensures dirty && Valid()
      ensures Distinct(order) && Elements(order) == observers && |order| == |observers|
      ensures calls == old(calls) + order
      ensures failures == old(failures) + Failing(order, fails)
    {
      dirty := true;
      order := NotifyObservers(fails);
    }

    /**
     * The value property: a dirty cell runs compute_fn once and caches the
     * result; a clean one returns the cache without computing.
     */
    method Read(current: T) returns (v: T)
      requires Valid()
      modifies this`cached, this`dirty, this`computeCalls
      ensures Valid() && !dirty
      ensures old(dirty) ==> v == current && cached == Some(current) && computeCalls == old(computeCalls) + 1
      ensures !old(dirty) ==> v == old(cached).value && cached == old(cached) && computeCalls == old(computeCalls)
    {
      if dirty {
        cached := Some(current);
        dirty := false;
        computeCalls := computeCalls + 1;
      }
      v := cached.value;
    }

    method Subscribe(observer: ObserverId) returns (u: Unsubscriber)
      modifies this`observers
      ensures u == Unsubscriber(observer, false) && observers == old(observers) + {observer}
    {
      observers := observers + {observer};
      u := Unsubscriber(observer, false);
    }

    method Unsubscribe(u: Unsubscriber)
      modifies this`observers
      ensures observers == old(observers) - {u.observer}
    {
      observers := observers - {u.observer};
    }
  }

  /**
   * Two reads with nothing marking the cell dirty in between run compute_fn
   * at most once, and the second read returns what the first did.
   */
  method ReadTwiceComputesOnce<T>(c: Computed<T>, first: T, second: T) returns (a: T, b: T)
    requires c.Valid()
    modifies c
    ensures b == a && c.computeCalls <= old(c.computeCalls) + 1
  {
    a := c.Read(first);
    b := c.Read(second);
  }
}
