/**
 * The SceneLoadManager of the Scripts tree: after the first scene loads it collects every
 * registered ISceneLoadListener into a static list (with no duplicate check) and registers its
 * four static dispatchers; each dispatcher tells every listener in the list, and the stopwatch
 * stop dispatcher empties the list afterwards. The static list is a field of one object here.
 */
module ScriptsSceneLoad {
  import opened Engine
  import opened EngineEvents
  import ScriptsRegistry

  /** Two initialisations from an empty list enter every listener twice, so every fan-out reaches each one twice. */
  lemma DoubleInitDuplicates(found: seq<Asset>, n: Notification, l: Asset)
    ensures multiset(FanOut(found + found, n))[ListenerCall(l, n)] == 2 * multiset(found)[l]
  {
    FanOutReachesEachOccurrence(found + found, n, l);
    assert multiset(found + found) == multiset(found) + multiset(found);
  }

  /** The `foreach (var so in All) if (so is ISceneLoadListener) list.Add(so)` loop. */
  method AddListeners(ls0: seq<Asset>, all: seq<Asset>) returns (ls: seq<Asset>)
    ensures ls == ls0 + OfType(all, SceneLoadListenerType)
  {
    ls := ls0;
    for i := 0 to |all|
      invariant ls == ls0 + OfType(all[..i], SceneLoadListenerType)
    {
      OfTypePrefix(all, i, SceneLoadListenerType);
      if IsA(all[i], SceneLoadListenerType) {
        ls := ls + [all[i]];
      }
    }
    assert all[..|all|] == all;
  }

  class SceneLoadManager {
    /** _sceneLoadListeners. */
    var listeners: seq<Asset>
    /** The calls made on listeners. */
    var calls: seq<ListenerCall>

    constructor ()
      ensures listeners == [] && calls == []
    {
      listeners := [];
      calls := [];
    }

    /**
     * InitSceneLoadListeners: appends every registered ISceneLoadListener to the list, in
     * registry order and without checking for duplicates, then registers the four dispatchers.
     */
    method InitSceneLoadListeners(registry: ScriptsRegistry.ScriptableObjectManager, events: Events)
      requires registry.Valid()
      modifies this`listeners, events`stopwatchStart, events`stopwatchStop, events`sceneLoaded, events`sceneUnloaded
      ensures listeners == old(listeners) + OfType(registry.All(), SceneLoadListenerType)
      ensures events.stopwatchStart == old(events.stopwatchStart) + [DispatchStopwatchStart]
      ensures events.stopwatchStop == old(events.stopwatchStop) + [DispatchStopwatchStop]
      ensures events.sceneLoaded == old(events.sceneLoaded) + [DispatchSceneLoad]
      ensures events.sceneUnloaded == old(events.sceneUnloaded) + [DispatchSceneUnload]
    {
      listeners := AddListeners(listeners, registry.All());
      events.stopwatchStart := events.stopwatchStart + [DispatchStopwatchStart];
      events.stopwatchStop := events.stopwatchStop + [DispatchStopwatchStop];
      events.sceneLoaded := events.sceneLoaded + [DispatchSceneLoad];
      events.sceneUnloaded := events.sceneUnloaded + [DispatchSceneUnload];
    }

    /**
     * OnDisable: removes one registration of each dispatcher, empties the list and clears the
     * registry's name map.
     */
    method OnDisable(registry: ScriptsRegistry.ScriptableObjectManager, events: Events)
      modifies this`listeners, registry`objects, events`stopwatchStart, events`stopwatchStop, events`sceneLoaded, events`sceneUnloaded
      ensures events.sceneLoaded == RemoveLast(old(events.sceneLoaded), DispatchSceneLoad)
      ensures events.sceneUnloaded == RemoveLast(old(events.sceneUnloaded), DispatchSceneUnload)
      ensures events.stopwatchStart == RemoveLast(old(events.stopwatchStart), DispatchStopwatchStart)
      ensures events.stopwatchStop == RemoveLast(old(events.stopwatchStop), DispatchStopwatchStop)
      ensures listeners == [] && registry.Valid() && registry.All() == []
      ensures registry.saveableScriptableObjects == old(registry.saveableScriptableObjects)
    {
      events.sceneLoaded := RemoveLast(events.sceneLoaded, DispatchSceneLoad);
      events.sceneUnloaded := RemoveLast(events.sceneUnloaded, DispatchSceneUnload);
      events.stopwatchStart := RemoveLast(events.stopwatchStart, DispatchStopwatchStart);
      events.stopwatchStop := RemoveLast(events.stopwatchStop, DispatchStopwatchStop);
      listeners := [];
      registry.Clear();
    }

    /** OnSceneLoad: every listener in the list is told, in list order. */
    method OnSceneLoad(scene: Scene, mode: LoadSceneMode)
      modifies this`calls
      ensures calls == old(calls) + FanOut(listeners, SceneLoaded(scene, mode))
    {
      var told := Notify(listeners, SceneLoaded(scene, mode));
      calls := calls + told;
    }

    /** OnSceneUnload: every listener in the list is told, in list order. */
    method OnSceneUnload(scene: Scene)
      modifies this`calls
      ensures calls == old(calls) + FanOut(listeners, SceneUnloaded(scene))
    {
      var told := Notify(listeners, SceneUnloaded(scene));
      calls := calls + told;
    }

    /** OnSceneStopWatchStart: every listener is told that the stopwatch started in the active scene. */
    method OnSceneStopWatchStart(activeScene: Scene)
      modifies this`calls
      ensures calls == old(calls) + FanOut(listeners, StopwatchStarted(activeScene))
    {
      var told := Notify(listeners, StopwatchStarted(activeScene));
      calls := calls + told;
    }

    /** OnSceneStopWatchStop: every listener is told that the stopwatch stopped, then the list is emptied. */
    method OnSceneStopWatchStop(activeScene: Scene)
      modifies this`calls, this`listeners
      ensures calls == old(calls) + FanOut(old(listeners), StopwatchStopped(activeScene))
      ensures listeners == []
    {
      var told := Notify(listeners, StopwatchStopped(activeScene));
      calls := calls + told;
      listeners := [];
    }

    /**
     * The stopwatch raising OnStart: each registration of the start dispatcher tells every
     * listener once, so a doubly registered dispatcher tells each listener twice.
     */
    method RaiseStopwatchStart(events: Events, activeScene: Scene)
      modifies this`calls
      ensures calls == old(calls) +
                Times(multiset(events.stopwatchStart)[DispatchStopwatchStart], FanOut(listeners, StopwatchStarted(activeScene)))
    {
      var hs := events.stopwatchStart;
      for i := 0 to |hs|
        invariant calls == old(calls) + Times(multiset(hs[..i])[DispatchStopwatchStart], FanOut(listeners, StopwatchStarted(activeScene)))
      {
        CountStep(hs, i, DispatchStopwatchStart);
        if hs[i] == DispatchStopwatchStart {
          TimesStep(old(calls), multiset(hs[..i])[DispatchStopwatchStart], FanOut(listeners, StopwatchStarted(activeScene)));
          OnSceneStopWatchStart(activeScene);
        }
      }
      assert hs[..|hs|] == hs;
    }

    /**
     * The stopwatch raising OnStop: the first registration of the stop dispatcher tells every
     * listener and empties the list, so further registrations tell nobody; with no registration
     * nothing happens.
     */
    method RaiseStopwatchStop(events: Events, activeScene: Scene)
      modifies this`calls, this`listeners
      ensures DispatchStopwatchStop in events.stopwatchStop ==>
                calls == old(calls) + FanOut(old(listeners), StopwatchStopped(activeScene)) && listeners == []
      ensures DispatchStopwatchStop !in events.stopwatchStop ==> calls == old(calls) && listeners == old(listeners)
    {
      var hs := events.stopwatchStop;
      for i := 0 to |hs|
        invariant DispatchStopwatchStop in hs[..i] ==>
                    calls == old(calls) + FanOut(old(listeners), StopwatchStopped(activeScene)) && listeners == []
        invariant DispatchStopwatchStop !in hs[..i] ==> calls == old(calls) && listeners == old(listeners)
      {
        assert hs[..i + 1] == hs[..i] + [hs[i]];
        if hs[i] == DispatchStopwatchStop {
          OnSceneStopWatchStop(activeScene);
        }
      }
      assert hs[..|hs|] == hs;
    }
  }
}
