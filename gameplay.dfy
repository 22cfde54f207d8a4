/**
 * The plugin runtime (engine/core/gameplay.js): the registry that sorts the
 * plugins into scheduled, single-tick, sub-tick, event-listener and UI lists,
 * the event queue, and the event-delivery plugin that drains it.
 *
 * A plugin is a value naming its class and what it declares (whether it
 * ignores extra ticks, handles sub-ticks, which events it observes). Its
 * handleEvent is not part of this model; what matters to the runtime is
 * which events it sends back while handling one, so delivery takes that as
 * a function `reply`, and the runtime keeps the log of handleEvent calls it
 * made. The timing threads (Date, setInterval, requestAnimationFrame) are
 * not part of this model.
 */
module Gameplay {
  import opened Wrappers
  import opened Seqs

  /** The class of a registered object. A mixed plugin is a scheduled plugin too. */
  datatype Kind =
    | Scheduled(ignoresExtraTicks: bool, handlesSubTicks: bool)
    | Mixed(ignoresExtraTicks: bool, handlesSubTicks: bool, observedEvents: seq<string>)
    | EventDriven(observedEvents: seq<string>)
    | UI(observedEvents: seq<string>)
    | Other  // none of the plugin classes

  datatype Plugin = Plugin(id: int, kind: Kind)

  /** The runtime's own event-delivery plugin, a scheduled plugin. */
  const EventDeliveryPlugin := Plugin(-1, Scheduled(false, false))

  /** An event: its name and its data, None standing for null. */
  datatype Event<D> = Event(name: string, data: Option<D>)

  /** One handleEvent call: the plugin and the event it was given. */
  datatype Handled<D> = Handled(plugin: Plugin, event: Event<D>)

  datatype Failure =
    | NotAPlugin      // "The provided object ... is not a valid plugin"
    | AlreadyRunning  // "GamePlay daemon is already running"
    | NotRunning      // "GamePlay daemon is not running"

  /**
   * The plugin lists. The listener table holds only the names registered,
   * not the names a plain JavaScript object inherits from Object.prototype.
   */
  datatype Registry = Registry(
    scheduled: seq<Plugin>, singleTick: seq<Plugin>, subTick: seq<Plugin>,
    listeners: map<string, seq<Plugin>>, ui: seq<Plugin>)

  const NoPlugins := Registry([], [], [], map[], [])

  /** The plugins listening for `name`: none when the name has no list yet. */
  function Listeners(m: map<string, seq<Plugin>>, name: string): seq<Plugin> {
    if name in m then m[name] else []
  }

  /** registerEventDrivenPlugin: the plugin appended to the list of each observed name, the last name first. */
  function Listen(m: map<string, seq<Plugin>>, observed: seq<string>, p: Plugin): map<string, seq<Plugin>>
    decreases |observed|
  {
    if observed == [] then m
    else
      var name := observed[|observed| - 1];
      Listen(m[name := Listeners(m, name) + [p]], observed[..|observed| - 1], p)
  }

  /** A name observed k times gets the plugin appended k times; every other list is untouched. */
  lemma {:induction false} ListenCount(m: map<string, seq<Plugin>>, observed: seq<string>, p: Plugin, name: string)
    ensures Listeners(Listen(m, observed, p), name) == Listeners(m, name) + seq(multiset(observed)[name], _ => p)
    decreases |observed|
  {
    if observed != [] {
      var last := observed[|observed| - 1];
      var front := observed[..|observed| - 1];
      var m' := m[last := Listeners(m, last) + [p]];
      ListenCount(m', front, p, name);
      assert observed == front + [last];
      assert multiset(observed)[name] == multiset(front)[name] + if last == name then 1 else 0;
      if last == name {
        assert Listeners(m', name) == Listeners(m, name) + [p];
        assert [p] + seq(multiset(front)[name], _ => p) == seq(multiset(observed)[name], _ => p);
      } else {
        assert Listeners(m', name) == Listeners(m, name);
      }
    }
  }

  /** The scheduled lists a scheduled or mixed plugin joins. */
  function Schedule(r: Registry, p: Plugin, ignoresExtraTicks: bool, handlesSubTicks: bool): Registry {
    var r := if ignoresExtraTicks then r.(singleTick := r.singleTick + [p]) else r.(scheduled := r.scheduled + [p]);
    if handlesSubTicks then r.(subTick := r.subTick + [p]) else r
  }

  /** One pass of the constructor's loop: the lists the plugin joins by its class, or the error for a non-plugin. */
  function Add(r: Registry, p: Plugin): (r': Result<Registry, Failure>)
    ensures r'.Err? <==> p.kind.Other?
  {
    match p.kind
    case Scheduled(ignores, sub) => Ok(Schedule(r, p, ignores, sub))
    case Mixed(ignores, sub, observed) =>
      var s := Schedule(r, p, ignores, sub);
      Ok(s.(listeners := Listen(s.listeners, observed, p)))
    case EventDriven(observed) => Ok(r.(listeners := Listen(r.listeners, observed, p)))
    case UI(observed) => Ok(r.(listeners := Listen(r.listeners, observed, p), ui := r.ui + [p]))
    case Other => Err(NotAPlugin)
  }

  /** The constructor's loop over the plugins, from the last to the first. */
  function Register(plugins: seq<Plugin>): Result<Registry, Failure> {
    if plugins == [] then Ok(NoPlugins)
    else match Register(plugins[1..])
      case Err(e) => Err(e)
      case Ok(r) => Add(r, plugins[0])
  }

  /** Registration fails exactly when one of the objects is not a plugin. */
  lemma {:induction false} RegisterFails(plugins: seq<Plugin>)
    ensures Register(plugins).Err? <==> exists k :: 0 <= k < |plugins| && plugins[k].kind.Other?
  {
    if plugins != [] {
      RegisterFails(plugins[1..]);
      assert forall k :: 1 <= k < |plugins| ==> plugins[k] == plugins[1..][k - 1];
      if Register(plugins[1..]).Err? {
        var k :| 0 <= k < |plugins[1..]| && plugins[1..][k].kind.Other?;
        assert plugins[k + 1].kind.Other?;
      }
    }
  }

  /** A plugin of the kind adds itself to what it observes: the observed names of a mixed, event-driven or UI plugin. */
  function Observed(k: Kind): seq<string> {
    match k
    case Mixed(_, _, observed) => observed
    case EventDriven(observed) => observed
    case UI(observed) => observed
    case _ => []
  }

  /** A registered plugin observing the name k times is on that name's list k more times. */
  lemma AddListens(r: Registry, p: Plugin, name: string)
    requires !p.kind.Other?
    ensures Listeners(Add(r, p).value.listeners, name) == Listeners(r.listeners, name) + seq(multiset(Observed(p.kind))[name], _ => p)
  {
    ListenCount(r.listeners, Observed(p.kind), p, name);
    if p.kind.Mixed? {
      assert Schedule(r, p, p.kind.ignoresExtraTicks, p.kind.handlesSubTicks).listeners == r.listeners;
    }
  }

  /** The handleEvent calls for one event: its listeners, the last-registered first. */
  function ToEach<D>(listeners: seq<Plugin>, e: Event<D>): (r: seq<Handled<D>>)
    ensures |r| == |listeners|
    ensures forall k :: 0 <= k < |listeners| ==> r[k] == Handled(listeners[|listeners| - 1 - k], e)
  {
    seq(|listeners|, k requires 0 <= k < |listeners| => Handled(listeners[|listeners| - 1 - k], e))
  }

  /** The handleEvent calls for a queue, event by event in queue order. */
  function Deliveries<D>(events: seq<Event<D>>, m: map<string, seq<Plugin>>): seq<Handled<D>> {
    if events == [] then []
    else
      var e := events[|events| - 1];
      Deliveries(events[..|events| - 1], m) + ToEach(Listeners(m, e.name), e)
  }

  /** The events the handlers send, in the order of the calls. */
  function Replies<D>(calls: seq<Handled<D>>, reply: (Plugin, Event<D>) -> seq<Event<D>>): seq<Event<D>> {
    if calls == [] then []
    else
      var c := calls[|calls| - 1];
      Replies(calls[..|calls| - 1], reply) + reply(c.plugin, c.event)
  }

  /** Each event in the queue reaches exactly the plugins listening for its name. */
  lemma {:induction false} DeliveredTo<D>(events: seq<Event<D>>, m: map<string, seq<Plugin>>, h: Handled<D>)
    ensures h in Deliveries(events, m) <==> h.event in events && h.plugin in Listeners(m, h.event.name)
  {
    if events != [] {
      var e := events[|events| - 1];
      var front := events[..|events| - 1];
      DeliveredTo(front, m, h);
      assert events == front + [e];
      InToEach(Listeners(m, e.name), e, h);
    }
  }

  lemma InToEach<D>(ps: seq<Plugin>, e: Event<D>, h: Handled<D>)
    ensures h in ToEach(ps, e) <==> h.event == e && h.plugin in ps
  {
    var here := ToEach(ps, e);
    if h in here {
      var k :| 0 <= k < |here| && here[k] == h;
      assert h.plugin == ps[|ps| - 1 - k];
    }
    if h.event == e && h.plugin in ps {
      var k :| 0 <= k < |ps| && ps[k] == h.plugin;
      assert here[|ps| - 1 - k] == h;
    }
  }

  /** A queue delivered in two parts is delivered as a whole: the first part's calls come first. */
  lemma {:induction false} DeliveriesAppend<D>(a: seq<Event<D>>, b: seq<Event<D>>, m: map<string, seq<Plugin>>)
    ensures Deliveries(a + b, m) == Deliveries(a, m) + Deliveries(b, m)
    decreases |b|
  {
    if b == [] {
      assert a + b == a;
    } else {
      var e := b[|b| - 1];
      assert (a + b)[..|a + b| - 1] == a + b[..|b| - 1];
      DeliveriesAppend(a, b[..|b| - 1], m);
    }
  }

  /** Delivering one more event of the queue adds its calls at the end. */
  lemma DeliveriesStep<D>(events: seq<Event<D>>, i: nat, m: map<string, seq<Plugin>>)
    requires i < |events|
    ensures Deliveries(events[..i + 1], m) == Deliveries(events[..i], m) + ToEach(Listeners(m, events[i].name), events[i])
  {
    assert events[..i + 1][..i] == events[..i];
  }

  lemma RepliesStep<D>(calls: seq<Handled<D>>, c: Handled<D>, reply: (Plugin, Event<D>) -> seq<Event<D>>)
    ensures Replies(calls + [c], reply) == Replies(calls, reply) + reply(c.plugin, c.event)
  {
    assert (calls + [c])[..|calls|] == calls;
  }

  /** The replies to two runs of calls are the replies to each, in order. */
  lemma {:induction false} RepliesAppend<D>(a: seq<Handled<D>>, b: seq<Handled<D>>, reply: (Plugin, Event<D>) -> seq<Event<D>>)
    ensures Replies(a + b, reply) == Replies(a, reply) + Replies(b, reply)
    decreases |b|
  {
    if b == [] {
      assert a + b == a;
    } else {
      assert (a + b)[..|a + b| - 1] == a + b[..|b| - 1];
      RepliesAppend(a, b[..|b| - 1], reply);
    }
  }

  class GamePlay<D> {
    var eventQueue: seq<Event<D>>
    var scheduledPlugins: seq<Plugin>
    var singleTickScheduledPlugins: seq<Plugin>
    var subTickScheduledPlugins: seq<Plugin>
    var eventDrivenPlugins: map<string, seq<Plugin>>
    var uiPlugins: seq<Plugin>
    var threadsActive: bool
    /** The handleEvent calls made so far. */
    var handled: seq<Handled<D>>

    function Lists(): Registry
      reads this
    {
      Registry(scheduledPlugins, singleTickScheduledPlugins, subTickScheduledPlugins, eventDrivenPlugins, uiPlugins)
    }

    /** The fields before the constructor's loop. */
    constructor Empty()
      ensures Lists() == NoPlugins && eventQueue == [] && !threadsActive && handled == []
    {
      eventQueue := [];
      scheduledPlugins := [];
      singleTickScheduledPlugins := [];
      subTickScheduledPlugins := [];
      eventDrivenPlugins := map[];
      uiPlugins := [];
      threadsActive := false;
      handled := [];
    }

    /**
     * new GamePlay(plugins): the plugins registered from the last to the
     * first, then the event-delivery plugin appended to the scheduled list,
     * where the tick loop (which runs from the end) reaches it first. An
     * object of no plugin class throws.
     */
    static method New(plugins: seq<Plugin>) returns (r: Result<GamePlay<D>, Failure>)
      ensures r.Err? <==> Register(plugins).Err?
      ensures r.Err? ==> r.error == NotAPlugin
      ensures r.Ok? ==> fresh(r.value) && r.value.eventQueue == [] && !r.value.threadsActive && r.value.handled == []
      ensures r.Ok? ==> var reg := Register(plugins).value;
        r.value.Lists() == reg.(scheduled := reg.scheduled + [EventDeliveryPlugin])
    {
      var g := new GamePlay<D>.Empty();
      var i := |plugins|;
      while i > 0
        invariant 0 <= i <= |plugins|
        invariant Register(plugins[i..]) == Ok(g.Lists())
        invariant fresh(g) && g.eventQueue == [] && !g.threadsActive && g.handled == []
      {
        i := i - 1;
        var plugin := plugins[i];
        assert plugins[i..][1..] == plugins[i + 1..];
        if plugin.kind.Other? {
          RegisterFails(plugins);
          assert plugins[i].kind.Other?;
          return Err(NotAPlugin);
        }
        g.RegisterPlugin(plugin);
      }
      assert plugins[0..] == plugins;
      g.scheduledPlugins := g.scheduledPlugins + [EventDeliveryPlugin];
      return Ok(g);
    }

    /** The branches of the constructor's loop for one plugin. */
    method RegisterPlugin(plugin: Plugin)
      requires !plugin.kind.Other?
      modifies this
      ensures Ok(Lists()) == Add(old(Lists()), plugin)
      ensures eventQueue == old(eventQueue) && threadsActive == old(threadsActive) && handled == old(handled)
    {
      match plugin.kind {
        case Scheduled(ignores, sub) =>
          SchedulePlugin(plugin, ignores, sub);
        case Mixed(ignores, sub, observed) =>
          SchedulePlugin(plugin, ignores, sub);
          RegisterEventDrivenPlugin(plugin, observed);
        case EventDriven(observed) =>
          RegisterEventDrivenPlugin(plugin, observed);
        case UI(observed) =>
          RegisterEventDrivenPlugin(plugin, observed);
          uiPlugins := uiPlugins + [plugin];
      }
    }

    method SchedulePlugin(plugin: Plugin, ignoresExtraTicks: bool, handlesSubTicks: bool)
      modifies this
      ensures Lists() == Schedule(old(Lists()), plugin, ignoresExtraTicks, handlesSubTicks)
      ensures eventQueue == old(eventQueue) && threadsActive == old(threadsActive) && handled == old(handled)
    {
      if ignoresExtraTicks {
        singleTickScheduledPlugins := singleTickScheduledPlugins + [plugin];
      } else {
        scheduledPlugins := scheduledPlugins + [plugin];
      }
      if handlesSubTicks {
        subTickScheduledPlugins := subTickScheduledPlugins + [plugin];
      }
    }

    /** registerEventDrivenPlugin: the observed names from the last, a list created for a name without one. */
    method RegisterEventDrivenPlugin(plugin: Plugin, observed: seq<string>)
      modifies this
      ensures eventDrivenPlugins == Listen(old(eventDrivenPlugins), observed, plugin)
      ensures scheduledPlugins == old(scheduledPlugins) && singleTickScheduledPlugins == old(singleTickScheduledPlugins)
      ensures subTickScheduledPlugins == old(subTickScheduledPlugins) && uiPlugins == old(uiPlugins)
      ensures eventQueue == old(eventQueue) && threadsActive == old(threadsActive) && handled == old(handled)
    {
      var i := |observed|;
      assert observed[..|observed|] == observed;
      while i > 0
        invariant 0 <= i <= |observed|
        invariant Listen(eventDrivenPlugins, observed[..i], plugin) == Listen(old(eventDrivenPlugins), observed, plugin)
        invariant scheduledPlugins == old(scheduledPlugins) && singleTickScheduledPlugins == old(singleTickScheduledPlugins)
        invariant subTickScheduledPlugins == old(subTickScheduledPlugins) && uiPlugins == old(uiPlugins)
        invariant eventQueue == old(eventQueue) && threadsActive == old(threadsActive) && handled == old(handled)
      {
        i := i - 1;
        var eventName := observed[i];
        assert observed[..i + 1][..i] == observed[..i];
        assert Listen(eventDrivenPlugins, observed[..i + 1], plugin) ==
          Listen(eventDrivenPlugins[eventName := Listeners(eventDrivenPlugins, eventName) + [plugin]], observed[..i], plugin);
        var lists := eventDrivenPlugins;
        if eventName !in lists {
          lists := lists[eventName := []];
        }
        lists := lists[eventName := lists[eventName] + [plugin]];
        assert lists == eventDrivenPlugins[eventName := Listeners(eventDrivenPlugins, eventName) + [plugin]];
        eventDrivenPlugins := lists;
      }
    }

    /** sendEvent: the event joins the end of the queue. */
    method SendEvent(name: string, data: Option<D>)
      modifies this
      ensures eventQueue == old(eventQueue) + [Event(name, data)]
      ensures Lists() == old(Lists()) && threadsActive == old(threadsActive) && handled == old(handled)
    {
      eventQueue := eventQueue + [Event(name, data)];
    }

    /**
     * The event-delivery plugin's handleTick: the queue is swapped for an
     * empty one, then each event of the old queue, in order, is handed to
     * each of its listeners from the last registered. Events the handlers
     * send land in the new queue and wait for the next delivery.
     */
    method DeliverEvents(reply: (Plugin, Event<D>) -> seq<Event<D>>)
      modifies this
      ensures handled == old(handled) + Deliveries(old(eventQueue), eventDrivenPlugins)
      ensures eventQueue == Replies(Deliveries(old(eventQueue), eventDrivenPlugins), reply)
      ensures Lists() == old(Lists()) && threadsActive == old(threadsActive)
    {
      var currentEvents := eventQueue;
      eventQueue := [];
      var i := 0;
      while i < |currentEvents|
        invariant 0 <= i <= |currentEvents|
        invariant handled == old(handled) + Deliveries(currentEvents[..i], eventDrivenPlugins)
        invariant eventQueue == Replies(Deliveries(currentEvents[..i], eventDrivenPlugins), reply)
        invariant scheduledPlugins == old(scheduledPlugins) && singleTickScheduledPlugins == old(singleTickScheduledPlugins)
        invariant subTickScheduledPlugins == old(subTickScheduledPlugins) && uiPlugins == old(uiPlugins)
        invariant eventDrivenPlugins == old(eventDrivenPlugins) && threadsActive == old(threadsActive)
      {
        var currentEvent := currentEvents[i];
        var eventListeningPlugins := Listeners(eventDrivenPlugins, currentEvent.name);
        ghost var calls := Deliveries(currentEvents[..i], eventDrivenPlugins);
        ghost var these := ToEach(eventListeningPlugins, currentEvent);
        DeliveriesStep(currentEvents, i, eventDrivenPlugins);
        RepliesAppend(calls, these, reply);
        HandleEach(eventListeningPlugins, currentEvent, reply);
        Associative(old(handled), calls, these);
        assert handled == old(handled) + (calls + these);
        i := i + 1;
      }
      assert currentEvents[..|currentEvents|] == currentEvents;
    }

    /** The inner loop of delivery: one event to each listener, the last first. */
    method HandleEach(listeners: seq<Plugin>, e: Event<D>, reply: (Plugin, Event<D>) -> seq<Event<D>>)
      modifies this
      ensures handled == old(handled) + ToEach(listeners, e)
      ensures eventQueue == old(eventQueue) + Replies(ToEach(listeners, e), reply)
      ensures Lists() == old(Lists()) && threadsActive == old(threadsActive)
    {
      var j := |listeners|;
      while j > 0
        invariant 0 <= j <= |listeners|
        invariant handled == old(handled) + ToEach(listeners, e)[..|listeners| - j]
        invariant eventQueue == old(eventQueue) + Replies(ToEach(listeners, e)[..|listeners| - j], reply)
        invariant Lists() == old(Lists()) && threadsActive == old(threadsActive)
      {
        j := j - 1;
        ghost var calls := ToEach(listeners, e);
        ghost var done := calls[..|listeners| - j - 1];
        assert calls[..|listeners| - j] == done + [Handled(listeners[j], e)];
        RepliesStep(done, Handled(listeners[j], e), reply);
        Associative(old(handled), done, [Handled(listeners[j], e)]);
        Associative(old(eventQueue), Replies(done, reply), reply(listeners[j], e));
        handled := handled + [Handled(listeners[j], e)];
        eventQueue := eventQueue + reply(listeners[j], e);
      }
      assert ToEach(listeners, e)[..|listeners|] == ToEach(listeners, e);
    }

    /**
     * start: refused while running; otherwise the threads are marked active,
     * "start" is sent and delivered at once, and "running" is queued for the
     * first tick.
     */
    method Start(reply: (Plugin, Event<D>) -> seq<Event<D>>) returns (r: Result<(), Failure>)
      modifies this
      ensures old(threadsActive) ==> r == Err(AlreadyRunning) && eventQueue == old(eventQueue) && handled == old(handled)
      ensures !old(threadsActive) ==> r.Ok? && threadsActive
      ensures !old(threadsActive) ==>
        var calls := Deliveries(old(eventQueue) + [Event("start", None)], eventDrivenPlugins);
        handled == old(handled) + calls && eventQueue == Replies(calls, reply) + [Event("running", None)]
      ensures Lists() == old(Lists())
    {
      if threadsActive {
        return Err(AlreadyRunning);
      }
      threadsActive := true;
      SendEvent("start", None);
      DeliverEvents(reply);
      SendEvent("running", None);
      return Ok(());
    }

    /** stop: refused unless running; otherwise the threads are marked inactive and "stop" is sent and delivered at once. */
    method Stop(reply: (Plugin, Event<D>) -> seq<Event<D>>) returns (r: Result<(), Failure>)
      modifies this
      ensures !old(threadsActive) ==> r == Err(NotRunning) && eventQueue == old(eventQueue) && handled == old(handled)
      ensures old(threadsActive) ==> r.Ok? && !threadsActive
      ensures old(threadsActive) ==>
        var calls := Deliveries(old(eventQueue) + [Event("stop", None)], eventDrivenPlugins);
        handled == old(handled) + calls && eventQueue == Replies(calls, reply)
      ensures Lists() == old(Lists())
    {
      if !threadsActive {
        return Err(NotRunning);
      }
      threadsActive := false;
      SendEvent("stop", None);
      DeliverEvents(reply);
      return Ok(());
    }
  }
}
